/** The colour theme (frontend/src/context/ThemeContext.js): the theme
    starts from local storage or 'light', toggles between 'light' and
    'dark', and after every change an effect puts the theme's class on the
    page's root element, removes the opposite one, and stores the theme. */
module Theme {
  import opened Common

  const Light := "light"
  const Dark := "dark"

  /** Local storage's `theme` entry, "" when there is none. */
  function StoredTheme(storage: map<string, string>): string {
    if "theme" in storage then storage["theme"] else ""
  }

  /** The initial theme: the stored one when there is one, else 'light'. */
  function InitialTheme(storage: map<string, string>): (t: string)
    ensures Truthy(StoredTheme(storage)) ==> t == storage["theme"]
    ensures !Truthy(StoredTheme(storage)) ==> t == Light
    ensures Truthy(t)
  {
    OrElse(StoredTheme(storage), Light)
  }

  /** `toggleTheme`: 'light' becomes 'dark', anything else 'light'. */
  function Toggled(t: string): (r: string)
    ensures t == Light ==> r == Dark
    ensures t != Light ==> r == Light
  {
    if t == Light then Dark else Light
  }

  /** Toggling twice returns to 'light' or 'dark', whichever it started
      from; any other stored theme is replaced by 'light' for good. */
  lemma ToggleTwice(t: string)
    ensures t == Light || t == Dark ==> Toggled(Toggled(t)) == t
    ensures t != Light && t != Dark ==> Toggled(t) == Light && Toggled(Toggled(t)) == Dark
  {
  }

  /** The class the effect removes for theme `t`. */
  function Opposite(t: string): string {
    if t == Dark then Light else Dark
  }

  /** The root element's classes after the effect for theme `t`. */
  function Synced(classes: set<string>, t: string): (r: set<string>)
    ensures t in r
    ensures (t == Light || t == Dark) ==> Opposite(t) !in r
    ensures t != Light && t != Dark ==> Dark !in r && (Light in r <==> Light in classes)
    ensures forall c :: c != Light && c != Dark && c != t ==> (c in r <==> c in classes)
  {
    classes - {Opposite(t)} + {t}
  }

  /** Running the effect again for the same theme changes nothing. */
  lemma SyncIdempotent(classes: set<string>, t: string)
    ensures Synced(Synced(classes, t), t) == Synced(classes, t)
  {
  }

  /** The provider's theme, the root element's class list and local
      storage. */
  class ThemeProvider {
    var theme: string
    var rootClasses: set<string>
    var storage: map<string, string>

    /** The effect has run for the current theme. */
    predicate Synchronised()
      reads this
    {
      && theme in rootClasses
      && ((theme == Light || theme == Dark) ==> Opposite(theme) !in rootClasses)
      && "theme" in storage && storage["theme"] == theme
    }

    /** Mounting: the initial theme, then the effect. */
    constructor (classes: set<string>, stored: map<string, string>)
      ensures theme == InitialTheme(stored)
      ensures rootClasses == Synced(classes, theme)
      ensures storage == stored["theme" := theme]
      ensures Synchronised()
    {
      theme := InitialTheme(stored);
      rootClasses := classes;
      storage := stored;
      new;
      SyncEffect();
    }

    /** The effect that runs after every change of `theme`. */
    method SyncEffect()
      modifies this
      ensures theme == old(theme)
      ensures rootClasses == Synced(old(rootClasses), theme)
      ensures storage == old(storage)["theme" := theme]
      ensures Synchronised()
    {
      rootClasses := rootClasses - {if theme == Dark then Light else Dark};
      rootClasses := rootClasses + {theme};
      storage := storage["theme" := theme];
    }

    /** `toggleTheme`, then the effect the new theme triggers. */
    method Toggle()
      modifies this
      ensures theme == Toggled(old(theme))
      ensures rootClasses == Synced(old(rootClasses), theme)
      ensures storage == old(storage)["theme" := theme]
      ensures Synchronised()
    {
      theme := if theme == Light then Dark else Light;
      SyncEffect();
    }
  }
}
