/**
 * The theme provider: whether the app follows the device's colour scheme or
 * the user's own choice, the dark-mode flag derived from that, and the
 * toggle that the settings control calls.
 */
module Theme {

  /** What the device reports for its colour scheme; `Unreported` is `null` or `undefined`. */
  datatype ColorScheme = LightScheme | DarkScheme | Unreported

  /** The user's own preference, `'light' | 'dark'`. */
  datatype Preference = LightPreference | DarkPreference

  /** The two colour tables; their contents are presentation. */
  datatype Palette = LightTheme | DarkTheme

  /** The provider's two pieces of state. */
  datatype Mode = Mode(useSystemTheme: bool, userThemePreference: Preference)

  /** On mount the provider follows the system, with `'light'` as the stored preference. */
  const InitialMode := Mode(true, LightPreference)

  function Opposite(p: Preference): Preference
  {
    if p == DarkPreference then LightPreference else DarkPreference
  }

  /** `isDarkMode`: the system's scheme in system mode, the user's preference otherwise. */
  predicate IsDarkMode(m: Mode, scheme: ColorScheme)
    ensures m.useSystemTheme ==> (IsDarkMode(m, scheme) <==> scheme == DarkScheme)
    ensures m.useSystemTheme && scheme == Unreported ==> !IsDarkMode(m, scheme)
    ensures !m.useSystemTheme ==> (IsDarkMode(m, scheme) <==> m.userThemePreference == DarkPreference)
  {
    if m.useSystemTheme then scheme == DarkScheme else m.userThemePreference == DarkPreference
  }

  /** `theme`: the dark table exactly when dark mode is on. */
  function ThemeOf(m: Mode, scheme: ColorScheme): (p: Palette)
    ensures p == DarkTheme <==> IsDarkMode(m, scheme)
    ensures p == LightTheme <==> !IsDarkMode(m, scheme)
  {
    if IsDarkMode(m, scheme) then DarkTheme else LightTheme
  }

  /**
   * `toggleTheme`: leaving system mode pins the preference to the opposite
   * of the scheme the device reports now; in user mode the preference flips.
   */
  function Toggled(m: Mode, scheme: ColorScheme): (t: Mode)
    ensures !t.useSystemTheme
    ensures IsDarkMode(t, scheme) == !IsDarkMode(m, scheme)
  {
    if m.useSystemTheme then
      Mode(false, if scheme == DarkScheme then LightPreference else DarkPreference)
    else
      Mode(false, Opposite(m.userThemePreference))
  }

  /** The mode after one toggle per element of `schemes`, each seeing the scheme reported at that moment. */
  function ToggledAll(m: Mode, schemes: seq<ColorScheme>): Mode
    decreases |schemes|
  {
    if schemes == [] then m else ToggledAll(Toggled(m, schemes[0]), schemes[1..])
  }

  /** The initial state is system mode with a `'light'` preference, so it shows the device's scheme. */
  lemma InitialFollowsSystem(scheme: ColorScheme)
    ensures InitialMode.useSystemTheme && InitialMode.userThemePreference == LightPreference
    ensures IsDarkMode(InitialMode, scheme) <==> scheme == DarkScheme
    ensures ThemeOf(InitialMode, LightScheme) == LightTheme && ThemeOf(InitialMode, Unreported) == LightTheme
  {
  }

  /** In system mode a scheme that is not reported, or light, is not dark. */
  lemma SystemModeDarkness(m: Mode, scheme: ColorScheme)
    requires m.useSystemTheme
    ensures IsDarkMode(m, scheme) <==> scheme == DarkScheme
    ensures scheme == Unreported ==> !IsDarkMode(m, scheme)
  {
  }

  /** In user mode the device's scheme plays no part. */
  lemma UserModeIgnoresScheme(m: Mode, s1: ColorScheme, s2: ColorScheme)
    requires !m.useSystemTheme
    ensures IsDarkMode(m, s1) == IsDarkMode(m, s2) == (m.userThemePreference == DarkPreference)
  {
  }

  /** A toggle in user mode flips only the preference. */
  lemma ToggleInUserMode(m: Mode, scheme: ColorScheme)
    requires !m.useSystemTheme
    ensures Toggled(m, scheme) == Mode(false, Opposite(m.userThemePreference))
    ensures Toggled(m, scheme).userThemePreference != m.userThemePreference
  {
  }

  /** A toggle in system mode pins the preference to the opposite of the current scheme. */
  lemma ToggleFromSystemMode(m: Mode, scheme: ColorScheme)
    requires m.useSystemTheme
    ensures !Toggled(m, scheme).useSystemTheme
    ensures Toggled(m, scheme).userThemePreference == DarkPreference <==> scheme != DarkScheme
  {
  }

  /** With the scheme fixed, two toggles give back the original dark-mode flag. */
  lemma TwoTogglesRestoreDarkMode(m: Mode, scheme: ColorScheme)
    ensures IsDarkMode(Toggled(Toggled(m, scheme), scheme), scheme) == IsDarkMode(m, scheme)
  {
  }

  /** Once system mode is left it is never re-entered, whatever the device reports along the way. */
  lemma {:induction false} SystemModeNeverReentered(m: Mode, schemes: seq<ColorScheme>)
    requires schemes != [] || !m.useSystemTheme
    ensures !ToggledAll(m, schemes).useSystemTheme
    decreases |schemes|
  {
    if schemes != [] {
      SystemModeNeverReentered(Toggled(m, schemes[0]), schemes[1..]);
    }
  }

  /**
   * With the scheme fixed at `scheme`, `k` toggles negate the dark-mode flag
   * exactly when `k` is odd.
   */
  lemma {:induction false} TogglesAlternateDarkMode(m: Mode, scheme: ColorScheme, schemes: seq<ColorScheme>)
    requires forall i :: 0 <= i < |schemes| ==> schemes[i] == scheme
    ensures IsDarkMode(ToggledAll(m, schemes), scheme) == (IsDarkMode(m, scheme) != (|schemes| % 2 == 1))
    decreases |schemes|
  {
    if schemes != [] {
      TogglesAlternateDarkMode(Toggled(m, schemes[0]), scheme, schemes[1..]);
    }
  }

  /**
   * Once in user mode, the flag after `k` toggles depends only on the
   * preference and the parity of `k`, not on what the device reports.
   */
  lemma {:induction false} UserModeTogglesIgnoreScheme(m: Mode, schemes: seq<ColorScheme>, scheme: ColorScheme)
    requires !m.useSystemTheme
    ensures IsDarkMode(ToggledAll(m, schemes), scheme) ==
            ((m.userThemePreference == DarkPreference) != (|schemes| % 2 == 1))
    decreases |schemes|
  {
    if schemes != [] {
      UserModeTogglesIgnoreScheme(Toggled(m, schemes[0]), schemes[1..], scheme);
    }
  }

  /** The provider component, whose two state variables `toggleTheme` updates. */
  class ThemeProvider {
    var useSystemTheme: bool
    var userThemePreference: Preference

    function CurrentMode(): Mode
      reads this
    {
      Mode(useSystemTheme, userThemePreference)
    }

    constructor ()
      ensures CurrentMode() == InitialMode
    {
      useSystemTheme := true;
      userThemePreference := LightPreference;
    }

    /** `isDarkMode` as rendered with the scheme the device reports. */
    predicate DarkMode(scheme: ColorScheme)
      reads this
    {
      IsDarkMode(CurrentMode(), scheme)
    }

    /** `theme` as rendered with the scheme the device reports. */
    function CurrentTheme(scheme: ColorScheme): (p: Palette)
      reads this
      ensures p == DarkTheme <==> DarkMode(scheme)
    {
      ThemeOf(CurrentMode(), scheme)
    }

    method ToggleTheme(scheme: ColorScheme)
      modifies this
      ensures CurrentMode() == Toggled(old(CurrentMode()), scheme)
      ensures !useSystemTheme
      ensures DarkMode(scheme) == !old(DarkMode(scheme))
    {
      if useSystemTheme {
        useSystemTheme := false;
        userThemePreference := if scheme == DarkScheme then LightPreference else DarkPreference;
      } else {
        userThemePreference := Opposite(userThemePreference);
      }
    }
  }
}
