/** The theme store: the theme the user selected and the one in effect. */
module ThemeStore {

  datatype Theme = Light | Dark | System

  datatype ThemeState = ThemeState(selectedTheme: Theme, actualTheme: Theme)

  /** The theme in effect is never `System`. */
  predicate Valid(s: ThemeState) { s.actualTheme != System }

  const Initial := ThemeState(System, Light)

  /** `getSystemTheme()`: dark exactly when a browser window reports that it
      prefers a dark colour scheme; the report is a parameter here. */
  function SystemTheme(prefersDark: bool): (t: Theme)
    ensures t != System
    ensures t == Dark <==> prefersDark
  {
    if prefersDark then Dark else Light
  }

  /** `setSelectedTheme(t)` */
  function SetSelectedTheme(s: ThemeState, t: Theme, prefersDark: bool): (r: ThemeState)
    ensures r.selectedTheme == t
    ensures t != System ==> r.actualTheme == t
    ensures t == System ==> r.actualTheme == SystemTheme(prefersDark)
    ensures Valid(r)
  {
    ThemeState(t, if t == System then SystemTheme(prefersDark) else t)
  }

  /** `toggleTheme()`: Light goes to Dark, Dark and System go to Light. */
  function ToggleTheme(s: ThemeState): (r: ThemeState)
    ensures s.selectedTheme == Light ==> r.selectedTheme == Dark
    ensures s.selectedTheme != Light ==> r.selectedTheme == Light
    ensures r.actualTheme == r.selectedTheme
    ensures Valid(r)
  {
    var next := if s.selectedTheme == Light then Dark else Light;
    ThemeState(next, next)
  }

  datatype Action = Select(theme: Theme, prefersDark: bool) | Toggle

  function Run(s: ThemeState, acts: seq<Action>): ThemeState
    decreases |acts|
  {
    if acts == [] then s
    else
      var s' := match acts[0]
        case Select(t, d) => SetSelectedTheme(s, t, d)
        case Toggle => ToggleTheme(s);
      Run(s', acts[1..])
  }

  /** From the initial state, no sequence of actions makes `System` the
      theme in effect. */
  lemma {:induction false} ActualNeverSystem(s: ThemeState, acts: seq<Action>)
    requires Valid(s)
    ensures Valid(Run(s, acts))
    decreases |acts|
  {
    if acts != [] {
      var s' := match acts[0]
        case Select(t, d) => SetSelectedTheme(s, t, d)
        case Toggle => ToggleTheme(s);
      ActualNeverSystem(s', acts[1..]);
    }
  }

  lemma InitialValid()
    ensures Valid(Initial) && Initial.selectedTheme == System
  {
  }

  /** Toggling twice from an explicitly chosen Light or Dark returns to the
      same state. */
  lemma ToggleTwice(s: ThemeState)
    requires Valid(s) && s.selectedTheme == s.actualTheme
    ensures ToggleTheme(ToggleTheme(s)) == s
  {
  }
}
