/** The theme provider: whether the dark theme is in force, from an optional
    manual choice that takes precedence over the platform's colour scheme,
    the toggle that records a manual choice, and the accessor that fails
    outside a provider. */
module Theme {
  import opened Optional

  datatype Scheme = Light | Dark

  /** The provider's inputs and state: the platform scheme (absent when the
      platform reports none) and the manual choice (`null` until one is made). */
  datatype Provider = Provider(system: Option<Scheme>, manual: Option<Scheme>)

  const NO_PROVIDER_ERROR: string := "useTheme must be used within a ThemeProvider"

  /** A freshly mounted provider follows the platform. */
  function Mount(system: Option<Scheme>): (p: Provider)
    ensures p.manual.None? && p.system == system
  {
    Provider(system, None)
  }

  /** `isDark`: the manual choice when there is one, else the platform's. */
  function IsDark(p: Provider): (b: bool)
    ensures p.manual.None? ==> (b <==> p.system == Some(Dark))
    ensures p.manual.Some? ==> (b <==> p.manual.value == Dark)
  {
    if p.manual.Some? then p.manual.value == Dark else p.system == Some(Dark)
  }

  /** `toggleTheme`: record as manual choice the opposite of what is shown. */
  function Toggle(p: Provider): (r: Provider)
    ensures r.manual.Some? && r.system == p.system
    ensures IsDark(r) == !IsDark(p)
  {
    p.(manual := Some(if IsDark(p) then Light else Dark))
  }

  /** `setManualTheme`: set or clear the manual choice. */
  function SetManual(p: Provider, m: Option<Scheme>): (r: Provider)
    ensures r.manual == m && r.system == p.system
  {
    p.(manual := m)
  }

  /** The platform reports a new colour scheme. */
  function SystemChanged(p: Provider, s: Option<Scheme>): (r: Provider)
    ensures r.system == s && r.manual == p.manual
  {
    p.(system := s)
  }

  /** `useTheme`: the provider's value, or the error raised when there is
      no provider above the caller. */
  function UseTheme(context: Option<Provider>): (r: Result<Provider, string>)
    ensures r.Err? <==> context.None?
    ensures r.Err? ==> r.error == NO_PROVIDER_ERROR
    ensures context.Some? ==> r == Ok(context.value)
  {
    match context
    case None => Err(NO_PROVIDER_ERROR)
    case Some(p) => Ok(p)
  }

  datatype Event = ToggleEv | SetManualEv(m: Option<Scheme>) | SystemEv(s: Option<Scheme>)

  function Step(p: Provider, e: Event): Provider {
    match e
    case ToggleEv => Toggle(p)
    case SetManualEv(m) => SetManual(p, m)
    case SystemEv(s) => SystemChanged(p, s)
  }

  function Run(p: Provider, es: seq<Event>): Provider
    decreases |es|
  {
    if |es| == 0 then p else Run(Step(p, es[0]), es[1..])
  }

  function ToggleTimes(p: Provider, n: nat): Provider
    decreases n
  {
    if n == 0 then p else Toggle(ToggleTimes(p, n - 1))
  }

  // ---------------------------------------------------------------------
  // Properties

  /** Without a platform signal and without a manual choice the theme is light;
      a light platform scheme gives light too. */
  lemma NoSignalIsLight()
    ensures !IsDark(Mount(None))
    ensures !IsDark(Mount(Some(Light)))
    ensures IsDark(Mount(Some(Dark)))
  {
  }

  /** A manual choice decides alone, whatever the platform reports. */
  lemma ManualWins(p: Provider, s: Option<Scheme>)
    requires p.manual.Some?
    ensures IsDark(SystemChanged(p, s)) == IsDark(p)
    ensures IsDark(p) == (p.manual == Some(Dark))
  {
  }

  /** Toggling twice shows the original theme again, now as a manual choice,
      which platform changes no longer affect. */
  lemma ToggleTwice(p: Provider, s: Option<Scheme>)
    ensures IsDark(Toggle(Toggle(p))) == IsDark(p)
    ensures Toggle(Toggle(p)).manual == Some(if IsDark(p) then Dark else Light)
    ensures IsDark(SystemChanged(Toggle(p), s)) == IsDark(Toggle(p))
  {
  }

  /** Clearing the manual choice returns to following the platform. */
  lemma ClearRestoresSystem(p: Provider, s: Option<Scheme>)
    ensures IsDark(SetManual(p, None)) == (p.system == Some(Dark))
    ensures IsDark(SystemChanged(SetManual(p, None), s)) == (s == Some(Dark))
  {
  }

  /** `n` toggles flip the theme exactly when `n` is odd. */
  lemma {:induction false} TogglesFlipByParity(p: Provider, n: nat)
    ensures IsDark(ToggleTimes(p, n)) == (if n % 2 == 0 then IsDark(p) else !IsDark(p))
    ensures n > 0 ==> ToggleTimes(p, n).manual.Some?
    decreases n
  {
    if n > 0 {
      TogglesFlipByParity(p, n - 1);
    }
  }

  /** Once a manual choice exists, and as long as nobody clears it, the
      platform's scheme has no say: the same events give the same theme
      whatever the platform reported at the start or reports along the way. */
  lemma {:induction false} OverrideIgnoresSystem(p: Provider, s: Option<Scheme>, es: seq<Event>)
    requires p.manual.Some?
    requires forall i :: 0 <= i < |es| ==> es[i] != SetManualEv(None)
    ensures Run(p, es).manual.Some?
    ensures IsDark(Run(p, es)) == IsDark(Run(p.(system := s), es))
    decreases |es|
  {
    if |es| > 0 {
      var q := Step(p, es[0]);
      var q' := Step(p.(system := s), es[0]);
      assert q'.manual == q.manual;
      assert q' == q.(system := q'.system);
      assert forall i :: 0 <= i < |es[1..]| ==> es[1..][i] == es[i + 1];
      OverrideIgnoresSystem(q, q'.system, es[1..]);
    }
  }
}
