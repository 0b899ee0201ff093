/** The app-wide UI state: the active editor tab, whether the history drawer
    is open, a history item waiting to be restored into an editor, and the
    colour theme, which is also written to browser storage. Storage is a
    map that may be unavailable (no window, or a storage call that throws);
    a failed write is swallowed. */
module AppStore {
  import opened Wrappers
  import opened HistoryTypes

  const THEME_STORAGE_KEY := "seedream.theme"

  datatype ThemePreference = Light | Dark

  function ThemeText(t: ThemePreference): string {
    match t
    case Light => "light"
    case Dark => "dark"
  }

  /** The other theme. */
  function Flip(t: ThemePreference): (r: ThemePreference)
    ensures r != t
  {
    if t == Light then Dark else Light
  }

  /** `resolveInitialTheme`: without a window, light; otherwise a stored
      `light` or `dark`, and failing that the system's dark-mode preference
      when `matchMedia` exists. `stored` is `None` when nothing is stored or
      reading throws. */
  function ResolveInitialTheme(hasWindow: bool, stored: Option<string>, hasMatchMedia: bool, prefersDark: bool)
    : (t: ThemePreference)
    ensures !hasWindow ==> t == Light
    ensures hasWindow && stored.Some? && (stored.value == "light" || stored.value == "dark") ==>
      ThemeText(t) == stored.value
    ensures hasWindow && !(stored.Some? && (stored.value == "light" || stored.value == "dark")) ==>
      (t == Dark <==> hasMatchMedia && prefersDark)
  {
    if !hasWindow then Light
    else if stored == Some("light") then Light
    else if stored == Some("dark") then Dark
    else if hasMatchMedia && prefersDark then Dark
    else Light
  }

  /** What a read of the theme key yields. */
  function StoredTheme(storage: map<string, string>, available: bool): Option<string> {
    if available && THEME_STORAGE_KEY in storage then Some(storage[THEME_STORAGE_KEY]) else None
  }

  /** `persistTheme`: the theme is written under its key when storage can be
      used, and nothing happens otherwise. */
  function Persisted(storage: map<string, string>, available: bool, t: ThemePreference): (r: map<string, string>)
    ensures available ==> THEME_STORAGE_KEY in r && r[THEME_STORAGE_KEY] == ThemeText(t)
    ensures forall k :: k != THEME_STORAGE_KEY ==> (k in r <==> k in storage) && (k in storage ==> r[k] == storage[k])
    ensures !available ==> r == storage
  {
    if available then storage[THEME_STORAGE_KEY := ThemeText(t)] else storage
  }

  /** A persisted theme is the one the next page load starts with, whatever
      the system preference. */
  lemma PersistedThemeRestored(storage: map<string, string>, t: ThemePreference, hasMatchMedia: bool, prefersDark: bool)
    ensures ResolveInitialTheme(true, StoredTheme(Persisted(storage, true, t), true), hasMatchMedia, prefersDark) == t
  {
    assert StoredTheme(Persisted(storage, true, t), true) == Some(ThemeText(t));
  }

  /** The app store. `storage` and `storageAvailable` stand for the browser's
      local storage. */
  class AppState {
    var activeTab: EditorTab
    var historyOpen: bool
    var pendingHistory: Option<HistoryItem>
    var theme: ThemePreference
    var storage: map<string, string>
    const storageAvailable: bool

    /** The initial state: the text-to-image tab, the drawer closed, nothing
        pending, and the resolved theme. */
    constructor(hasWindow: bool, initialStorage: map<string, string>, readable: bool, writable: bool,
                hasMatchMedia: bool, prefersDark: bool)
      ensures activeTab == T2I && !historyOpen && pendingHistory == None
      ensures theme == ResolveInitialTheme(hasWindow, StoredTheme(initialStorage, hasWindow && readable), hasMatchMedia, prefersDark)
      ensures storage == initialStorage && storageAvailable == (hasWindow && writable)
    {
      activeTab := T2I;
      historyOpen := false;
      pendingHistory := None;
      theme := ResolveInitialTheme(hasWindow, StoredTheme(initialStorage, hasWindow && readable), hasMatchMedia, prefersDark);
      storage := initialStorage;
      storageAvailable := hasWindow && writable;
    }

    method SetActiveTab(tab: EditorTab)
      modifies this
      ensures activeTab == tab
      ensures historyOpen == old(historyOpen) && pendingHistory == old(pendingHistory)
      ensures theme == old(theme) && storage == old(storage)
    {
      activeTab := tab;
    }

    method ToggleHistory()
      modifies this
      ensures historyOpen == !old(historyOpen)
      ensures activeTab == old(activeTab) && pendingHistory == old(pendingHistory)
      ensures theme == old(theme) && storage == old(storage)
    {
      historyOpen := !historyOpen;
    }

    method SetHistoryOpen(open: bool)
      modifies this
      ensures historyOpen == open
      ensures activeTab == old(activeTab) && pendingHistory == old(pendingHistory)
      ensures theme == old(theme) && storage == old(storage)
    {
      historyOpen := open;
    }

    method SetPendingHistory(item: Option<HistoryItem>)
      modifies this
      ensures pendingHistory == item
      ensures activeTab == old(activeTab) && historyOpen == old(historyOpen)
      ensures theme == old(theme) && storage == old(storage)
    {
      pendingHistory := item;
    }

    /** `setTheme`: persist, then update the theme; a failed write leaves
        storage as it was but the theme still changes. */
    method SetTheme(t: ThemePreference)
      modifies this
      ensures theme == t
      ensures storage == Persisted(old(storage), storageAvailable, t)
      ensures activeTab == old(activeTab) && historyOpen == old(historyOpen) && pendingHistory == old(pendingHistory)
    {
      storage := Persisted(storage, storageAvailable, t);
      theme := t;
    }

    /** `toggleTheme`: switch to the other theme and persist it. */
    method ToggleTheme()
      modifies this
      ensures theme == Flip(old(theme))
      ensures storage == Persisted(old(storage), storageAvailable, theme)
      ensures activeTab == old(activeTab) && historyOpen == old(historyOpen) && pendingHistory == old(pendingHistory)
    {
      var next := if theme == Light then Dark else Light;
      storage := Persisted(storage, storageAvailable, next);
      theme := next;
    }
  }

  /** Toggling the theme twice restores the original theme and leaves the
      original theme stored. */
  method ToggleTwice(app: AppState)
    modifies app
    ensures app.theme == old(app.theme)
    ensures app.storageAvailable ==> app.storage == Persisted(old(app.storage), true, old(app.theme))
  {
    app.ToggleTheme();
    app.ToggleTheme();
    if app.storageAvailable {
      assert app.storage == old(app.storage)[THEME_STORAGE_KEY := ThemeText(app.theme)];
    }
  }
}
