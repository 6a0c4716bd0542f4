/**
  The light/dark theme switch. At start-up the theme comes from the page (a `dark` class an
  early script may already have set), else from the remembered choice in local storage, else
  from the system colour-scheme preference, else light. Whenever the theme changes it is
  written back to the page's class list and to storage; the button flips it.
*/
module Theme {
  import opened Text

  /** Local storage as the component sees it: either every access throws, or it holds an
      optional value under the key "theme". */
  datatype Storage = Unavailable | Available(theme: Option<string>)

  /** The system colour-scheme query: absent (no `window` or no `matchMedia`), answering
      whether dark is preferred, or throwing. */
  datatype Media = NoMatchMedia | Prefers(dark: bool) | MediaThrows

  /** `getInitialDark`: a non-empty stored value decides (dark iff it is "dark"); an absent
      or empty one defers to the system preference; no preference, or any failure inside the
      `try`, means light. */
  function GetInitialDark(storage: Storage, media: Media): bool {
    match storage
    case Unavailable => false
    case Available(v) =>
      if v.Some? && v.value != "" then v.value == "dark"
      else
        match media
        case Prefers(d) => d
        case NoMatchMedia => false
        case MediaThrows => false
  }

  /** A remembered choice decides on its own, whatever the system says. */
  lemma {:induction false} StoredChoiceDecides(v: string, m1: Media, m2: Media)
    requires v != ""
    ensures GetInitialDark(Available(Some(v)), m1) == (v == "dark")
    ensures GetInitialDark(Available(Some(v)), m1) == GetInitialDark(Available(Some(v)), m2)
  {
  }

  /** With nothing (or an empty string) stored, the system preference decides, and without
      one the theme is light. */
  lemma {:induction false} NoChoiceFollowsSystem(v: Option<string>, m: Media)
    requires v == None || v == Some("")
    ensures GetInitialDark(Available(v), m) == (m.Prefers? && m.dark)
  {
  }

  /** Failing storage means light, and the system preference is never consulted. */
  lemma {:induction false} FailedStorageIsLight(m: Media)
    ensures !GetInitialDark(Unavailable, m)
  {
  }

  /** The initial `isDarkMode`: with a document, a `dark` class already on the root element
      wins and otherwise `getInitialDark` decides; without one, `getInitialDark` decides.
      `pageDark` is `None` when there is no document. */
  function InitialDark(pageDark: Option<bool>, storage: Storage, media: Media): (r: bool)
    ensures pageDark == Some(true) ==> r
    ensures pageDark != Some(true) ==> r == GetInitialDark(storage, media)
  {
    match pageDark
    case Some(hasDark) => hasDark || GetInitialDark(storage, media)
    case None => GetInitialDark(storage, media)
  }

  /** `localStorage.setItem("theme", …)` as the sync effect calls it; a storage that throws
      is left as it is. */
  function WriteTheme(storage: Storage, dark: bool): Storage {
    match storage
    case Unavailable => Unavailable
    case Available(_) => Available(Some(if dark then "dark" else "light"))
  }

  /** Round trip: once a theme is written, resolving from storage gives it back, whatever
      the system preference. */
  lemma {:induction false} WrittenThemeIsRead(storage: Storage, dark: bool, media: Media)
    requires storage.Available?
    ensures GetInitialDark(WriteTheme(storage, dark), media) == dark
  {
  }

  /** The last write wins, so writing the same theme twice changes nothing. */
  lemma {:induction false} LastWriteWins(storage: Storage, d1: bool, d2: bool)
    ensures WriteTheme(WriteTheme(storage, d1), d2) == WriteTheme(storage, d2)
    ensures WriteTheme(WriteTheme(storage, d1), d1) == WriteTheme(storage, d1)
  {
  }

  class ThemeToggle {
    /** The component's state. */
    var isDarkMode: bool
    /** Whether the root element carries the `dark` class. */
    var pageDark: bool
    var storage: Storage
    const media: Media

    /** The page and storage agree with the state, as they do after every sync. */
    predicate Synced()
      reads this
    {
      pageDark == isDarkMode && storage == WriteTheme(storage, isDarkMode)
    }

    /** Mounting: the initial state, then the first run of the sync effect. */
    constructor (page: Option<bool>, storage0: Storage, media0: Media)
      ensures isDarkMode == InitialDark(page, storage0, media0)
      ensures pageDark == isDarkMode
      ensures storage == WriteTheme(storage0, isDarkMode)
      ensures media == media0
      ensures Synced()
    {
      var dark := InitialDark(page, storage0, media0);
      isDarkMode := dark;
      pageDark := page == Some(true);
      storage := storage0;
      media := media0;
      new;
      Sync();
    }

    /** The effect that keeps the page and storage in line with the state: the class is
        set first, so a failing `setItem` leaves it set. */
    method Sync()
      modifies this`pageDark, this`storage
      ensures pageDark == isDarkMode
      ensures storage == WriteTheme(old(storage), isDarkMode)
      ensures Synced()
    {
      if isDarkMode {
        pageDark := true;
        storage := WriteTheme(storage, true);
      } else {
        pageDark := false;
        storage := WriteTheme(storage, false);
      }
    }

    /** `toggleTheme`. */
    method Toggle()
      modifies this`isDarkMode
      ensures isDarkMode == !old(isDarkMode)
    {
      isDarkMode := !isDarkMode;
    }

    /** A click on the button: the state flips, then the effect runs. */
    method Click()
      modifies this`isDarkMode, this`pageDark, this`storage
      ensures isDarkMode == !old(isDarkMode)
      ensures pageDark == isDarkMode
      ensures storage == WriteTheme(old(storage), isDarkMode)
    {
      Toggle();
      Sync();
    }
  }

  /** Two clicks on a synced toggle restore the theme, the page class and storage. */
  method ClickTwiceRestores(t: ThemeToggle)
    requires t.Synced()
    modifies t
    ensures t.isDarkMode == old(t.isDarkMode)
    ensures t.pageDark == old(t.pageDark)
    ensures t.storage == old(t.storage)
  {
    ghost var s0 := t.storage;
    t.Click();
    t.Click();
    LastWriteWins(s0, !t.isDarkMode, t.isDarkMode);
  }
}
