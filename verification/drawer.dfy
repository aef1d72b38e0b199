/** The mobile drawer: the visibility flag, the slide offset and the
    backdrop fade, driven by the hamburger (`showSidebar`), the deferred
    frame that starts the opening animations, the backdrop (`hideSidebar`)
    and the end of the animation pair.

    The slide and the fade are always started together (`Animated.parallel`).
    In the program the spring and the timing end at different moments and
    only the pair's callback waits for both; the model gives the pair a
    single end event, the moment that callback runs. Starting a pair, or resetting a
    value with `setValue`, ends the pair in flight early; if that pair was the
    closing one, its completion callback runs at that moment, because the
    callback does not look at whether the animation finished. */
module Drawer {
  import opened Optional
  import opened Animation
  import Layout

  /** Slide offset of the fully hidden drawer (one expanded width to the left). */
  const HIDDEN_OFFSET: int := -Layout.SIDEBAR_EXPANDED_WIDTH
  /** Slide offset of the fully shown drawer. */
  const SHOWN_OFFSET: int := 0
  /** Backdrop opacities. */
  const TRANSPARENT: int := 0
  const OPAQUE: int := 1

  datatype DrawerState = DrawerState(
    visible: bool,        // `isSidebarVisible`: the overlay takes touches
    slide: Interp,        // `slideAnim`
    fade: Interp,         // `fadeAnim`
    queuedFrames: nat,    // frame callbacks requested by `showSidebar` and not yet run
    closePending: bool    // the closing pair's completion callback has not yet run
  )

  /** At mount: hidden, transparent, invisible, nothing scheduled. */
  const Initial: DrawerState :=
    DrawerState(false, SetValue(HIDDEN_OFFSET), SetValue(TRANSPARENT), 0, false)

  /** The phases a reader sees, derived from the fields rather than stored. */
  datatype Phase = Closed | Opening | Open | Closing

  function PhaseOf(d: DrawerState): (p: Phase)
    ensures p == Closed <==> !d.visible
    ensures p == Open ==> d.slide.Current() == Some(SHOWN_OFFSET) && d.queuedFrames == 0
    ensures p == Open ==> !d.closePending && d.slide == Interp(SHOWN_OFFSET, Resting)
    ensures d.visible && !d.closePending && d.queuedFrames == 0 && d.slide == Interp(SHOWN_OFFSET, Resting) ==> p == Open
    ensures p == Closing ==> d.visible && d.closePending
    ensures p == Opening ==> d.visible && !d.closePending
  {
    if !d.visible then Closed
    else if d.closePending then Closing
    else if d.queuedFrames == 0 && d.slide == Interp(SHOWN_OFFSET, Resting) then Open
    else Opening
  }

  /** A newer instruction to the slide and fade values ends the pair in
      flight; a pending close callback runs now and hides the overlay. */
  function Supersede(d: DrawerState): (r: DrawerState)
    ensures !r.closePending
    ensures r.visible == (d.visible && !d.closePending)
    ensures r.slide.status != Running && r.fade.status != Running
    ensures r.queuedFrames == d.queuedFrames
  {
    var d1 := if d.closePending then d.(visible := false, closePending := false) else d;
    d1.(slide := Interrupt(d1.slide), fade := Interrupt(d1.fade))
  }

  /** `showSidebar`: reset both values to the hidden position, make the
      overlay visible and ask for a frame in which to start opening. */
  function Show(d: DrawerState): (r: DrawerState)
    ensures r.visible && !r.closePending
    ensures r.slide.Current() == Some(HIDDEN_OFFSET)
    ensures r.fade.Current() == Some(TRANSPARENT)
    ensures r.queuedFrames == d.queuedFrames + 1
  {
    Supersede(d).(
      slide := SetValue(HIDDEN_OFFSET),
      fade := SetValue(TRANSPARENT),
      visible := true,
      queuedFrames := d.queuedFrames + 1)
  }

  /** A requested frame arrives: start sliding in and fading the backdrop in.
      With no frame requested nothing happens. */
  function Frame(d: DrawerState): (r: DrawerState)
    ensures d.queuedFrames == 0 ==> r == d
    ensures d.queuedFrames > 0 ==>
      && r.slide == AnimateTo(SHOWN_OFFSET)
      && r.fade == AnimateTo(OPAQUE)
      && r.queuedFrames == d.queuedFrames - 1
      && r.visible == (d.visible && !d.closePending)
      && !r.closePending
  {
    if d.queuedFrames == 0 then d
    else
      Supersede(d).(
        slide := AnimateTo(SHOWN_OFFSET),
        fade := AnimateTo(OPAQUE),
        queuedFrames := d.queuedFrames - 1)
  }

  /** `hideSidebar`: slide out and fade the backdrop out; the overlay stays
      visible until the pair's completion callback runs. */
  function Hide(d: DrawerState): (r: DrawerState)
    ensures r.slide == AnimateTo(HIDDEN_OFFSET) && r.fade == AnimateTo(TRANSPARENT)
    ensures r.closePending
    ensures r.visible == (d.visible && !d.closePending)
    ensures r.queuedFrames == d.queuedFrames
  {
    Supersede(d).(
      slide := AnimateTo(HIDDEN_OFFSET),
      fade := AnimateTo(TRANSPARENT),
      closePending := true)
  }

  /** The pair in flight ends by itself (`finished`) or is dropped by the
      platform (`!finished`). The close callback, if pending, hides the
      overlay either way. */
  function PairEnd(d: DrawerState, finished: bool): (r: DrawerState)
    ensures d.slide.status != Running ==> r == d
    ensures d.slide.status == Running ==>
      && r.slide == End(d.slide, finished)
      && r.fade == End(d.fade, finished)
      && r.visible == (d.visible && !d.closePending)
      && !r.closePending
  {
    if d.slide.status != Running then d
    else
      var r := d.(slide := End(d.slide, finished), fade := End(d.fade, finished));
      if d.closePending then r.(visible := false, closePending := false) else r
  }

  /** Where a touch on the open overlay lands. */
  datatype Target =
    | Backdrop  // the area around the drawer, whose press handler hides it
    | Content   // inside the drawer, whose handler stops propagation

  /** A press on the overlay: ignored while the overlay is not visible
      (`pointerEvents: 'none'`), swallowed by the drawer content, and a
      hide request on the backdrop. */
  function Press(d: DrawerState, t: Target): (r: DrawerState)
    ensures !d.visible ==> r == d
    ensures t == Content ==> r == d
    ensures d.visible && t == Backdrop ==> r == Hide(d)
  {
    if !d.visible then d
    else match t
      case Content => d
      case Backdrop => Hide(d)
  }

  /** The drawer's inputs as events. */
  datatype Event =
    | ShowEv
    | FrameEv
    | PressEv(target: Target)
    | PairEndEv(finished: bool)

  function Step(d: DrawerState, e: Event): DrawerState {
    match e
    case ShowEv => Show(d)
    case FrameEv => Frame(d)
    case PressEv(t) => Press(d, t)
    case PairEndEv(f) => PairEnd(d, f)
  }

  function Run(d: DrawerState, es: seq<Event>): DrawerState
    decreases |es|
  {
    if |es| == 0 then d else Run(Step(d, es[0]), es[1..])
  }

  // ---------------------------------------------------------------------
  // Properties of single events

  /** Showing starts from the hidden position whatever the drawer was doing,
      a half-finished close included, and the next frame sends the pair to
      the shown position and the opaque backdrop. */
  lemma ShowThenFrame(d: DrawerState)
    ensures PhaseOf(Show(d)) == Opening
    ensures Frame(Show(d)).visible
    ensures Frame(Show(d)).slide == Interp(SHOWN_OFFSET, Running)
    ensures Frame(Show(d)).fade == Interp(OPAQUE, Running)
    ensures PhaseOf(Frame(Show(d))) == Opening
  {
  }

  /** Once no frame is left to come, the opening pair's natural end leaves
      the drawer Open: visible, at rest in the shown position, backdrop opaque. */
  lemma OpeningEndsOpen(d: DrawerState)
    requires Inv(d) && PhaseOf(d) == Opening
    requires d.queuedFrames == 0 && d.slide.status == Running
    ensures PhaseOf(PairEnd(d, true)) == Open
    ensures PairEnd(d, true).fade.Current() == Some(OPAQUE)
  {
  }

  /** Hamburger, frame and a finished pair, from any state: the drawer is
      Open, as long as no other frame was already requested. */
  lemma ShowFrameEndIsOpen(d: DrawerState)
    requires d.queuedFrames == 0
    ensures PhaseOf(PairEnd(Frame(Show(d)), true)) == Open
    ensures PairEnd(Frame(Show(d)), true).slide.Current() == Some(SHOWN_OFFSET)
  {
  }

  /** Hiding an open or opening drawer keeps the overlay visible; only the
      completion callback, finished or not, makes it invisible, and a
      finished close leaves the drawer at rest in the hidden position. */
  lemma HideThenEnd(d: DrawerState, finished: bool)
    requires PhaseOf(d) == Opening || PhaseOf(d) == Open
    ensures Hide(d).visible && PhaseOf(Hide(d)) == Closing
    ensures !PairEnd(Hide(d), finished).visible
    ensures PhaseOf(PairEnd(Hide(d), finished)) == Closed
    ensures PairEnd(Hide(d), true).slide.Current() == Some(HIDDEN_OFFSET)
    ensures PairEnd(Hide(d), true).fade.Current() == Some(TRANSPARENT)
    ensures PairEnd(Hide(d), true).visible == PairEnd(Hide(d), false).visible
  {
  }

  /** The overlay becomes visible only through the hamburger. */
  lemma OnlyShowReveals(d: DrawerState, e: Event)
    requires !d.visible && Step(d, e).visible
    ensures e == ShowEv
  {
  }

  /** The overlay becomes invisible only when a pending close callback runs. */
  lemma OnlyCloseCallbackHides(d: DrawerState, e: Event)
    requires d.visible && !Step(d, e).visible
    ensures d.closePending
    ensures e != ShowEv
  {
  }

  /** The Closing phase is entered only through a press on the backdrop. */
  lemma OnlyBackdropStartsClosing(d: DrawerState, e: Event)
    requires PhaseOf(d) != Closing && PhaseOf(Step(d, e)) == Closing
    ensures e == PressEv(Backdrop)
  {
  }

  /** A press inside the drawer content never reaches the backdrop, and a
      press on an invisible overlay does nothing. */
  lemma ContentPressSwallowed(d: DrawerState, t: Target)
    ensures Step(d, PressEv(Content)) == d
    ensures !d.visible ==> Step(d, PressEv(t)) == d
    ensures PhaseOf(d) == Open ==> PhaseOf(Step(d, PressEv(Content))) == Open
  {
  }

  /** Pressing the backdrop again while the drawer is closing ends the first
      closing pair early; its callback hides the overlay at once, while the
      second pair still slides the drawer out. */
  lemma SecondBackdropPressHidesAtOnce(d: DrawerState)
    requires PhaseOf(d) == Closing
    ensures !Press(d, Backdrop).visible
    ensures Press(d, Backdrop).closePending
    ensures Press(d, Backdrop).slide == Interp(HIDDEN_OFFSET, Running)
  {
  }

  /** A backdrop press that lands before the opening frame: the frame cuts
      the closing pair short, whose callback hides the overlay, and then
      starts the opening pair anyway. The drawer slides in behind an
      overlay that ignores touches, and rests there once the pair finishes. */
  lemma BackdropBeforeFrame(d: DrawerState)
    ensures var r := Frame(Press(Show(d), Backdrop));
      && !r.visible
      && r.slide == Interp(SHOWN_OFFSET, Running)
      && r.fade == Interp(OPAQUE, Running)
    ensures var r := PairEnd(Frame(Press(Show(d), Backdrop)), true);
      && PhaseOf(r) == Closed
      && r.slide.Current() == Some(SHOWN_OFFSET)
      && r.fade.Current() == Some(OPAQUE)
  {
  }

  // ---------------------------------------------------------------------
  // Properties of every reachable state

  /** What holds of every drawer state reachable from `Initial`: the two
      values always head for matching ends (shown with opaque, hidden with
      transparent), run and rest together, and a pending close callback
      belongs to exactly the pair in flight towards the hidden position. */
  ghost predicate Inv(d: DrawerState) {
    && (d.slide.target == HIDDEN_OFFSET || d.slide.target == SHOWN_OFFSET)
    && d.fade.target == (if d.slide.target == SHOWN_OFFSET then OPAQUE else TRANSPARENT)
    && d.slide.status == d.fade.status
    && (d.closePending ==> d.slide.target == HIDDEN_OFFSET && d.slide.status == Running)
    && (d.slide.target == HIDDEN_OFFSET && d.slide.status == Running ==> d.closePending)
  }

  lemma InitialInv()
    ensures Inv(Initial)
    ensures PhaseOf(Initial) == Closed
  {
  }

  lemma StepInv(d: DrawerState, e: Event)
    requires Inv(d)
    ensures Inv(Step(d, e))
  {
  }

  lemma {:induction false} RunInv(d: DrawerState, es: seq<Event>)
    requires Inv(d)
    ensures Inv(Run(d, es))
    decreases |es|
  {
    if |es| > 0 {
      StepInv(d, es[0]);
      RunInv(Step(d, es[0]), es[1..]);
    }
  }

  /** In every reachable state the backdrop is opaque-bound exactly when the
      drawer is shown-bound; the Closing phase is exactly a visible overlay
      whose drawer is sliding towards the hidden position; and once a close
      has completed the drawer rests hidden and transparent. */
  lemma Reachable(es: seq<Event>)
    ensures var d := Run(Initial, es);
      && (d.fade.target == OPAQUE <==> d.slide.target == SHOWN_OFFSET)
      && (d.closePending ==> d.slide.status == Running)
    ensures var d := Run(Initial, es);
      PhaseOf(d) == Closing <==> d.visible && d.slide == Interp(HIDDEN_OFFSET, Running)
    ensures var d := Run(Initial, es);
      d.closePending ==> PairEnd(d, true).slide.Current() == Some(HIDDEN_OFFSET)
  {
    InitialInv();
    RunInv(Initial, es);
  }
}
