/** An animated scalar (an `Animated.Value` of the sidebar) described only by
    the last value it was sent towards and whether it is there yet. The curve
    between two values (spring tension and friction, timing durations) is not
    modelled: a running animation is just "on its way to `target`". */
module Animation {
  import opened Optional

  /** Where the value stands with respect to `target`. */
  datatype Status =
    | Resting  // the value equals `target`
    | Running  // an animation towards `target` is in flight
    | Stopped  // an animation towards `target` ended before reaching it

  datatype Interp = Interp(target: int, status: Status) {

    /** The exact current value; known only while the value rests at its target. */
    function Current(): (v: Option<int>)
      ensures v.Some? <==> status == Resting
      ensures v.Some? ==> v.value == target
    {
      if status == Resting then Some(target) else None
    }
  }

  /** `setValue(v)`: jump to `v` at once, ending any animation in flight. */
  function SetValue(v: int): (a: Interp)
    ensures a.Current() == Some(v)
  {
    Interp(v, Resting)
  }

  /** Start an animation towards `t`; it replaces whatever was in flight. */
  function AnimateTo(t: int): (a: Interp)
    ensures a.target == t && a.status == Running
    ensures a.Current().None?
  {
    Interp(t, Running)
  }

  /** The animation in flight (if any) is cut short by a newer instruction. */
  function Interrupt(a: Interp): (r: Interp)
    ensures r.target == a.target
    ensures r.status != Running
    ensures a.status != Running ==> r == a
  {
    if a.status == Running then a.(status := Stopped) else a
  }

  /** The animation in flight ends by itself: at its target when `finished`,
      short of it otherwise. A value with nothing in flight is unaffected. */
  function End(a: Interp, finished: bool): (r: Interp)
    ensures r.target == a.target
    ensures a.status == Running && finished ==> r.Current() == Some(a.target)
    ensures a.status == Running && !finished ==> r.status == Stopped
    ensures a.status != Running ==> r == a
  {
    if a.status != Running then a
    else if finished then a.(status := Resting)
    else a.(status := Stopped)
  }
}
