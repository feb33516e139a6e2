/**
 * frontend/src/features/theme/themeSlice.js: the theme slice of the client store.
 *
 * The slice holds the chosen `mode` and the applied `theme`, and writes every change to
 * the persisted "theme" entry. The persisted entry and the system's dark-scheme
 * preference are inputs: `stored` is `None` when nothing was saved.
 */
module Theme {
  import opened Common

  /** The theme the system preference selects. */
  function SystemTheme(prefersDark: bool): (t: string)
    ensures t == "dark" <==> prefersDark
    ensures t == "light" || t == "dark"
  {
    if prefersDark then "dark" else "light"
  }

  /** A saved value is honoured only when it is non-empty and is "light" or "dark". */
  predicate Honoured(stored: Option<string>)
  {
    Given(stored) && (stored.value == "light" || stored.value == "dark")
  }

  /** `getInitialTheme`: the saved theme when honoured, otherwise the system's. */
  function InitialTheme(stored: Option<string>, prefersDark: bool): (t: string)
    ensures t == "light" || t == "dark"
    ensures Honoured(stored) ==> t == stored.value
    ensures !Honoured(stored) ==> t == SystemTheme(prefersDark)
  {
    if Given(stored) && (stored.value == "light" || stored.value == "dark") then stored.value
    else if prefersDark then "dark" else "light"
  }

  /** `getInitialThemeMode`, written separately in the slice with the same rule. */
  function InitialThemeMode(stored: Option<string>, prefersDark: bool): (m: string)
    ensures m == "light" || m == "dark"
  {
    if Given(stored) && (stored.value == "light" || stored.value == "dark") then stored.value
    else if prefersDark then "dark" else "light"
  }

  /** The two initialisers always agree, so the initial state has `mode == theme`. */
  lemma InitialModeIsInitialTheme(stored: Option<string>, prefersDark: bool)
    ensures InitialThemeMode(stored, prefersDark) == InitialTheme(stored, prefersDark)
  {
  }

  /** Reloading after saving `m` restores `m` exactly when `m` is "light" or "dark";
      any other saved value falls back to the system preference. */
  lemma ReloadRestoresSavedMode(m: string, prefersDark: bool)
    ensures InitialTheme(Some(m), prefersDark) == m <==> m == "light" || m == "dark"
    ensures !(m == "light" || m == "dark") ==> InitialTheme(Some(m), prefersDark) == SystemTheme(prefersDark)
  {
  }

  /** A theme saved from the system preference outlives a later change of preference. */
  lemma SavedSystemThemeIsSticky(savedPrefersDark: bool, laterPrefersDark: bool)
    ensures InitialTheme(Some(SystemTheme(savedPrefersDark)), laterPrefersDark) == SystemTheme(savedPrefersDark)
  {
  }

  /** The slice state together with the persisted "theme" entry. */
  class ThemeStore {
    var mode: string
    var theme: string
    var stored: Option<string>

    /** The applied theme always equals the chosen mode. */
    predicate Valid()
      reads this
    {
      mode == theme
    }

    /** The initial state, from the persisted entry and the system preference. */
    constructor (saved: Option<string>, prefersDark: bool)
      ensures Valid()
      ensures mode == InitialThemeMode(saved, prefersDark) && theme == InitialTheme(saved, prefersDark)
      ensures stored == saved
    {
      mode := InitialThemeMode(saved, prefersDark);
      theme := InitialTheme(saved, prefersDark);
      stored := saved;
    }

    /** `setThemeMode`: the payload becomes mode, theme and the saved value. */
    method SetThemeMode(payload: string)
      requires Valid()
      modifies this
      ensures Valid()
      ensures mode == payload && theme == payload && stored == Some(payload)
    {
      mode := payload;
      theme := payload;
      stored := Some(payload);
    }

    /** `updateSystemTheme`: the system preference becomes theme, mode and saved value. */
    method UpdateSystemTheme(prefersDark: bool)
      requires Valid()
      modifies this
      ensures Valid()
      ensures theme == SystemTheme(prefersDark) && mode == theme && stored == Some(theme)
    {
      var systemTheme := if prefersDark then "dark" else "light";
      theme := systemTheme;
      mode := systemTheme;
      stored := Some(systemTheme);
    }
  }

  /** Setting a mode and reloading: a "light" or "dark" mode survives the reload, any
      other payload gives way to the system preference. */
  method SetThenReload(payload: string, prefersDark: bool) returns (reloaded: string)
    ensures reloaded == "light" || reloaded == "dark"
    ensures reloaded == payload <==> payload == "light" || payload == "dark"
  {
    var store := new ThemeStore(None, prefersDark);
    store.SetThemeMode(payload);
    var next := new ThemeStore(store.stored, prefersDark);
    ReloadRestoresSavedMode(payload, prefersDark);
    reloaded := next.theme;
  }
}
