/** The light/dark theme switch: the initial choice (a stored preference wins,
    otherwise the system's colour-scheme preference), `applyTheme`, and the
    theme button's click handler that flips the mode and stores the choice. */
module Theme {
  import opened Dom

  datatype Mode = Light | Dark

  /** The `localStorage` key of the stored preference. */
  const ThemeKey: string := "theme"

  /** The value written to `data-theme` and to storage. */
  function Name(m: Mode): (r: string)
    ensures r == "light" <==> m == Light
    ensures r == "dark" <==> m == Dark
  {
    match m
    case Light => "light"
    case Dark => "dark"
  }

  /** The click handler's reading of the root's `data-theme`: "dark" is dark,
      anything else (including a missing attribute) counts as light. */
  function ModeOfAttr(attr: string): (m: Mode)
    ensures m == Dark <==> attr == "dark"
  {
    if attr == "dark" then Dark else Light
  }

  /** `getInitialTheme`. `hasMatchMedia` says whether `window.matchMedia`
      exists and `prefersDark` whether `(prefers-color-scheme: dark)` matches. */
  function InitialTheme(stored: Option<string>, hasMatchMedia: bool, prefersDark: bool): (m: Mode)
    ensures stored == Some("light") ==> m == Light
    ensures stored == Some("dark") ==> m == Dark
    ensures stored != Some("light") && stored != Some("dark") ==>
      (m == Dark <==> hasMatchMedia && prefersDark)
  {
    if stored == Some("light") then Light
    else if stored == Some("dark") then Dark
    else if hasMatchMedia && prefersDark then Dark
    else Light
  }

  /** The mode a click switches to. */
  function Other(m: Mode): (r: Mode)
    ensures r != m
  {
    match m
    case Light => Dark
    case Dark => Light
  }

  /** The button's `aria-pressed`: pressed exactly in dark mode. */
  function Pressed(m: Mode): (r: string)
    ensures r == "true" <==> m == Dark
    ensures r == "false" <==> m == Light
  {
    BoolAttr(m == Dark)
  }

  /** The capitalised theme name used in the button's hint. */
  function Title(m: Mode): string
  {
    match m
    case Light => "Light"
    case Dark => "Dark"
  }

  /** The button's `aria-label` and `title`: they name the theme a click would
      switch to, never the current one. */
  function ButtonLabel(m: Mode): (r: string)
    ensures r == "Toggle theme: " + Title(Other(m))
    ensures r != "Toggle theme: " + Title(m)
  {
    if m == Dark then "Toggle theme: Light" else "Toggle theme: Dark"
  }

  /** A mode written by `applyTheme` reads back as itself, both from the
      `data-theme` attribute and, once persisted, from storage on the next
      page load, whatever the system preference then is. */
  lemma NameRoundTrips(m: Mode, hasMatchMedia: bool, prefersDark: bool)
    ensures ModeOfAttr(Name(m)) == m
    ensures InitialTheme(Some(Name(m)), hasMatchMedia, prefersDark) == m
  {
  }

  class ThemeController {
    const hasButton: bool        // `#theme-toggle` exists
    var dataTheme: string        // the root element's `data-theme`
    var storage: map<string, string>
    var ariaPressed: string      // the button's attributes, meaningful only if it exists
    var ariaLabel: string
    var title: string

    /** The root always names a theme, and the button's state and hints agree with it. */
    ghost predicate Valid()
      reads this
    {
      && (dataTheme == "light" || dataTheme == "dark")
      && (hasButton ==>
            && ariaPressed == Pressed(ModeOfAttr(dataTheme))
            && ariaLabel == ButtonLabel(ModeOfAttr(dataTheme))
            && title == ariaLabel)
    }

    /** The theme part of start-up: `applyTheme(getInitialTheme(), false)`. */
    constructor (storage0: map<string, string>, hasMatchMedia: bool, prefersDark: bool, button: bool)
      ensures Valid() && hasButton == button
      ensures ModeOfAttr(dataTheme) == InitialTheme(Lookup(storage0, ThemeKey), hasMatchMedia, prefersDark)
      ensures storage == storage0
    {
      hasButton := button;
      dataTheme := "light";
      storage := storage0;
      ariaPressed := "";
      ariaLabel := "";
      title := "";
      new;
      ApplyTheme(InitialTheme(Lookup(storage0, ThemeKey), hasMatchMedia, prefersDark), false);
    }

    /** `applyTheme(mode, persist)`. */
    method ApplyTheme(mode: Mode, persist: bool)
      modifies this
      ensures Valid()
      ensures ModeOfAttr(dataTheme) == mode && dataTheme == Name(mode)
      ensures storage == if persist then old(storage)[ThemeKey := Name(mode)] else old(storage)
      ensures !hasButton ==>
        ariaPressed == old(ariaPressed) && ariaLabel == old(ariaLabel) && title == old(title)
    {
      dataTheme := Name(mode);
      if persist {
        storage := storage[ThemeKey := Name(mode)];
      }
      if hasButton {
        var isDark := mode == Dark;
        ariaPressed := BoolAttr(isDark);
        var nextLabel := if isDark then "Toggle theme: Light" else "Toggle theme: Dark";
        ariaLabel := nextLabel;
        title := nextLabel;
      }
    }

    /** The theme button's click handler: the other mode is shown and stored,
        so a reload starts in it, whatever the system preference. */
    method OnThemeButtonClick()
      requires hasButton
      modifies this
      ensures Valid()
      ensures ModeOfAttr(dataTheme) == Other(ModeOfAttr(old(dataTheme)))
      ensures storage == old(storage)[ThemeKey := dataTheme]
      ensures forall hasMatchMedia: bool, prefersDark: bool ::
        InitialTheme(Lookup(storage, ThemeKey), hasMatchMedia, prefersDark) == ModeOfAttr(dataTheme)
    {
      var current := if dataTheme == "dark" then Dark else Light;
      var next := if current == Dark then Light else Dark;
      ApplyTheme(next, true);
      forall hasMatchMedia: bool, prefersDark: bool
        ensures InitialTheme(Lookup(storage, ThemeKey), hasMatchMedia, prefersDark) == ModeOfAttr(dataTheme)
      {
        NameRoundTrips(next, hasMatchMedia, prefersDark);
      }
    }
  }
}
