/**
 * `detectPageTheme`: the host page's theme from four signals, the first that indicates
 * dark winning. The page is read through `PageSignals`, a record of exactly what the
 * code inspects.
 */
module ThemeDetection {
  import opened Wrappers
  import opened Strings
  import opened ChatTypes

  /**
   * What the detector can see of the host page: the class lists of `<html>` and `<body>`,
   * their `data-theme` attributes (`None` when absent), the computed `color-scheme` of
   * `<html>`, whether `window.matchMedia` exists, and whether the OS prefers dark.
   */
  datatype PageSignals = PageSignals(
    htmlClasses: set<string>,
    bodyClasses: set<string>,
    htmlDataTheme: Option<string>,
    bodyDataTheme: Option<string>,
    colorScheme: string,
    hasMatchMedia: bool,
    prefersDark: bool)

  /** The four dark indicators, in the order the detector consults them. */
  datatype Signal = DarkClass | DarkDataTheme | DarkColorScheme | OsPrefersDark

  predicate HasDarkClass(p: PageSignals) {
    "dark" in p.htmlClasses || "dark" in p.bodyClasses
    || "dark-mode" in p.htmlClasses || "dark-mode" in p.bodyClasses
  }

  /** The first dark indicator decides; since each one yields dark, the order of the checks does not change the result. */
  function DetectPageTheme(p: PageSignals): (t: Theme)
    ensures t == Dark <==>
      HasDarkClass(p) || p.htmlDataTheme == Some("dark") || Includes(p.colorScheme, "dark") || (p.hasMatchMedia && p.prefersDark)
    ensures t == Light || t == Dark
  {
    if HasDarkClass(p) then Dark
    else if p.htmlDataTheme == Some("dark") then Dark
    else if Includes(p.colorScheme, "dark") then Dark
    else if p.hasMatchMedia && p.prefersDark then Dark
    else Light
  }

  /** The signals a page raises, independent of their order. */
  function ActiveSignals(p: PageSignals): (r: set<Signal>)
    ensures DarkClass in r <==> HasDarkClass(p)
    ensures DarkDataTheme in r <==> p.htmlDataTheme == Some("dark")
    ensures DarkColorScheme in r <==> exists i :: OccursAt(p.colorScheme, "dark", i)
    ensures OsPrefersDark in r <==> p.hasMatchMedia && p.prefersDark
  {
    (if HasDarkClass(p) then {DarkClass} else {})
    + (if p.htmlDataTheme == Some("dark") then {DarkDataTheme} else {})
    + (if Includes(p.colorScheme, "dark") then {DarkColorScheme} else {})
    + (if p.hasMatchMedia && p.prefersDark then {OsPrefersDark} else {})
  }

  /** The result is dark exactly when some signal is raised, and light exactly when none is. */
  lemma DarkIffSomeSignal(p: PageSignals)
    ensures DetectPageTheme(p) == Dark <==> ActiveSignals(p) != {}
    ensures DetectPageTheme(p) == Light <==> ActiveSignals(p) == {}
  {
    var r := ActiveSignals(p);
    if HasDarkClass(p) { assert DarkClass in r; }
    else if p.htmlDataTheme == Some("dark") { assert DarkDataTheme in r; }
    else if Includes(p.colorScheme, "dark") { assert DarkColorScheme in r; }
    else if p.hasMatchMedia && p.prefersDark { assert OsPrefersDark in r; }
  }

  /** Raising more signals can never turn a dark result light. */
  lemma MoreSignalsStayDark(p: PageSignals, q: PageSignals)
    requires ActiveSignals(p) <= ActiveSignals(q)
    requires DetectPageTheme(p) == Dark
    ensures DetectPageTheme(q) == Dark
  {
    DarkIffSomeSignal(p);
    DarkIffSomeSignal(q);
  }

  /** A dark class on `<html>` or `<body>` decides the result whatever the other signals say. */
  lemma DarkClassOverrides(p: PageSignals, dataTheme: Option<string>, scheme: string, media: bool, os: bool)
    requires HasDarkClass(p)
    ensures DetectPageTheme(p.(htmlDataTheme := dataTheme, colorScheme := scheme,
                                hasMatchMedia := media, prefersDark := os)) == Dark
  {
  }

  /** `data-theme` counts only on `<html>` and only when it is exactly "dark". */
  lemma DataThemeRule(p: PageSignals, bodyTheme: Option<string>)
    ensures DetectPageTheme(p.(bodyDataTheme := bodyTheme)) == DetectPageTheme(p)
    ensures DetectPageTheme(p.(htmlDataTheme := Some("dark"))) == Dark
    ensures !HasDarkClass(p) && !Includes(p.colorScheme, "dark") && !(p.hasMatchMedia && p.prefersDark) ==>
      DetectPageTheme(p.(htmlDataTheme := Some("Dark"))) == Light
  {
  }

  /** A `color-scheme` value containing "dark" anywhere, such as "light dark", yields dark. */
  lemma ColorSchemeContainingDark(p: PageSignals)
    ensures DetectPageTheme(p.(colorScheme := "light dark")) == Dark
  {
    assert OccursAt("light dark", "dark", 6);
  }

  /** The OS preference is consulted only when `matchMedia` exists. */
  lemma OsPreferenceNeedsMatchMedia(p: PageSignals)
    requires !p.hasMatchMedia
    ensures DetectPageTheme(p.(prefersDark := true)) == DetectPageTheme(p.(prefersDark := false))
  {
  }
}
