/**
 * The theme slice of the Redux store (redux/store.js): the initial theme, the reducer
 * and the `setTheme` action creator.
 */
module ThemeStore {
  import opened Wrappers

  datatype Palette = Palette(background: string, text: string, border: string)
  datatype Colors = Colors(light: Palette, dark: Palette)
  datatype ThemeState = ThemeState(current: string, colors: Colors)

  /** An action: its `type` and its `payload`. */
  datatype Action = Action(kind: string, payload: string)

  const SetThemeType := "SET_THEME"

  const InitialTheme := ThemeState("dark", Colors(
    Palette("#fff", "#000", "#ccc"),
    Palette("#000", "#fff", "#666")))

  /** `themeReducer(state = initialThemeState, action)`: a missing state is the initial
      one; SET_THEME replaces `current`, any other action returns the state itself. */
  function Reduce(state: Option<ThemeState>, action: Action): ThemeState
  {
    var s := state.GetOr(InitialTheme);
    if action.kind == SetThemeType then s.(current := action.payload) else s
  }

  /** `setTheme(theme)`. */
  function SetTheme(theme: string): Action
  {
    Action(SetThemeType, theme)
  }

  /** The store starts dark, with the light and dark colour tables. */
  lemma InitialIsDark(a: Action)
    requires a.kind != SetThemeType
    ensures Reduce(None, a).current == "dark"
    ensures Reduce(None, a).colors.dark.background == "#000" && Reduce(None, a).colors.light.background == "#fff"
  {
  }

  /** SET_THEME sets the current theme and keeps the colours; any other action leaves
      the state as it was. */
  lemma ReduceEffect(s: ThemeState, a: Action)
    ensures Reduce(Some(s), a).colors == s.colors
    ensures a.kind == SetThemeType ==> Reduce(Some(s), a).current == a.payload
    ensures a.kind != SetThemeType ==> Reduce(Some(s), a) == s
  {
  }

  /** Setting a theme twice is setting it once; of two settings the last one wins. */
  lemma SetThemeLastWins(s: ThemeState, t1: string, t2: string)
    ensures Reduce(Some(Reduce(Some(s), SetTheme(t1))), SetTheme(t2)) == Reduce(Some(s), SetTheme(t2))
    ensures Reduce(Some(Reduce(Some(s), SetTheme(t1))), SetTheme(t1)) == Reduce(Some(s), SetTheme(t1))
  {
  }

  /** The state after dispatching the actions in order. */
  function ReduceAll(s: ThemeState, actions: seq<Action>): ThemeState
    decreases |actions|
  {
    if actions == [] then s
    else ReduceAll(Reduce(Some(s), actions[0]), actions[1..])
  }

  /** The payload of the last SET_THEME among the actions, if any. */
  function LastTheme(actions: seq<Action>): Option<string>
  {
    if actions == [] then None
    else if actions[|actions| - 1].kind == SetThemeType then Some(actions[|actions| - 1].payload)
    else LastTheme(actions[..|actions| - 1])
  }

  /** Over any run of actions the colours never change, and the current theme is the
      last one set, or the starting one when none was set. */
  lemma {:induction false} ReduceAllEffect(s: ThemeState, actions: seq<Action>)
    ensures ReduceAll(s, actions).colors == s.colors
    ensures ReduceAll(s, actions).current == LastTheme(actions).GetOr(s.current)
    decreases |actions|
  {
    if actions != [] {
      var n := |actions|;
      var init, last := actions[..n - 1], actions[n - 1];
      ReduceAllSnoc(s, init, last);
      assert init + [last] == actions;
      ReduceAllEffect(s, init);
    }
  }

  /** Dispatching one more action reduces the state reached so far. */
  lemma {:induction false} ReduceAllSnoc(s: ThemeState, actions: seq<Action>, a: Action)
    ensures ReduceAll(s, actions + [a]) == Reduce(Some(ReduceAll(s, actions)), a)
    decreases |actions|
  {
    if actions == [] {
      assert actions + [a] == [a];
    } else {
      assert (actions + [a])[0] == actions[0];
      assert (actions + [a])[1..] == actions[1..] + [a];
      ReduceAllSnoc(Reduce(Some(s), actions[0]), actions[1..], a);
    }
  }
}
