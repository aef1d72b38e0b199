/** The sidebar component as a whole: the layout flags from the window
    width, the width animation, the mobile drawer and the menu selection,
    with each user input routed to the element that can receive it in the
    current layout. */
module Sidebar {
  import opened Optional
  import opened Animation
  import Layout
  import Drawer
  import Menu
  import Theme

  datatype State = State(
    layout: Layout.Resolved,     // `isMobile`, `isExpanded`
    width: Interp,               // `widthAnim`
    drawer: Drawer.DrawerState,  // `isSidebarVisible`, `slideAnim`, `fadeAnim`
    selection: Menu.Selection,   // `activeItem`, `hoveredItem`
    theme: Theme.Provider        // the provider `useTheme` reached
  )

  /** The state of the first render under provider `p`, before the resize
      effect has run. */
  function PreMount(p: Theme.Provider): (s: State)
    ensures s.layout.isExpanded && !s.layout.isMobile
    ensures s.width.Current() == Some(Layout.SIDEBAR_EXPANDED_WIDTH)
    ensures Drawer.PhaseOf(s.drawer) == Drawer.Closed
    ensures s.selection == Menu.Selection(0, None) && s.theme == p
  {
    State(
      Layout.Resolved(false, true),
      SetValue(Layout.SIDEBAR_EXPANDED_WIDTH),
      Drawer.Initial,
      Menu.InitialSelection,
      p)
  }

  datatype Event =
    | Resize(windowWidth: int)           // the window width changes (and once at mount)
    | Hamburger                          // press on the mobile header's menu button
    | OverlayPress(target: Drawer.Target)
    | AnimationFrame                     // a frame requested by the hamburger arrives
    | DrawerPairEnd(finished: bool)      // the drawer's slide-and-fade pair ends
    | WidthAnimEnd(finished: bool)       // the width animation ends
    | ItemPress(index: int)
    | ItemHoverIn(index: int)
    | ItemHoverOut(index: int)
    | ThemeSwitch                        // press on the theme switch
    | SchemeChange(scheme: Option<Theme.Scheme>)  // the platform colour scheme changes

  /** `handleResize`: store the layout flags and send the width animation
      towards the matching width; nothing else changes. */
  function HandleResize(s: State, windowWidth: int): (r: State)
    ensures r.layout.isMobile <==> windowWidth < Layout.MOBILE_BREAKPOINT
    ensures r.layout.isExpanded <==> (windowWidth < Layout.MOBILE_BREAKPOINT || windowWidth >= Layout.EXPANDED_THRESHOLD)
    ensures r.width.status == Running
    ensures r.width.target == (if r.layout.isExpanded then Layout.SIDEBAR_EXPANDED_WIDTH else Layout.SIDEBAR_COMPACT_WIDTH)
    ensures r.drawer == s.drawer && r.selection == s.selection && r.theme == s.theme
  {
    var l := Layout.Resolve(windowWidth);
    s.(layout := l, width := AnimateTo(Layout.TargetWidth(l)))
  }

  /** The sidebar's contents (menu rows and theme switch) can be reached:
      always on desktop, and on mobile only inside a visible overlay. */
  predicate MenuReachable(s: State) {
    !s.layout.isMobile || s.drawer.visible
  }

  /** Whether a row with this index is drawn at all. */
  predicate IsItem(i: int) {
    0 <= i < |Menu.Items|
  }

  /** Route an input. The hamburger exists only on mobile and lies under the
      overlay while the overlay is visible; the overlay exists only on
      mobile; the rows exist only for the seven items. An input with no
      element to receive it changes nothing. */
  function Step(s: State, e: Event): State {
    match e
    case Resize(w) => HandleResize(s, w)
    case Hamburger =>
      if s.layout.isMobile && !s.drawer.visible then s.(drawer := Drawer.Show(s.drawer)) else s
    case OverlayPress(t) =>
      if s.layout.isMobile then s.(drawer := Drawer.Press(s.drawer, t)) else s
    case AnimationFrame => s.(drawer := Drawer.Frame(s.drawer))
    case DrawerPairEnd(f) => s.(drawer := Drawer.PairEnd(s.drawer, f))
    case WidthAnimEnd(f) => s.(width := End(s.width, f))
    case ItemPress(i) =>
      if IsItem(i) && MenuReachable(s) then s.(selection := Menu.Press(s.selection, i)) else s
    case ItemHoverIn(i) =>
      if IsItem(i) && MenuReachable(s) then s.(selection := Menu.HoverIn(s.selection, i)) else s
    case ItemHoverOut(i) =>
      if IsItem(i) && MenuReachable(s) then s.(selection := Menu.HoverOut(s.selection, i)) else s
    case ThemeSwitch =>
      if MenuReachable(s) then s.(theme := Theme.Toggle(s.theme)) else s
    case SchemeChange(sc) => s.(theme := Theme.SystemChanged(s.theme, sc))
  }

  function Run(s: State, es: seq<Event>): State
    decreases |es|
  {
    if |es| == 0 then s else Run(Step(s, es[0]), es[1..])
  }

  /** Mounting: the component reads the theme (failing without a provider)
      and then runs the resize effect once for the current width. */
  function Mount(context: Option<Theme.Provider>, windowWidth: int): (r: Result<State, string>)
    ensures r.Err? <==> context.None?
    ensures r.Err? ==> r.error == Theme.NO_PROVIDER_ERROR
    ensures r.Ok? ==> r.value.layout == Layout.Resolve(windowWidth)
    ensures r.Ok? ==> Drawer.PhaseOf(r.value.drawer) == Drawer.Closed
    ensures r.Ok? ==> r.value.selection == Menu.Selection(0, None)
    ensures r.Ok? ==> r.value.theme == context.value
  {
    match Theme.UseTheme(context)
    case Err(msg) => Err(msg)
    case Ok(p) => Ok(HandleResize(PreMount(p), windowWidth))
  }

  /** The width the sidebar is drawn at: always the expanded width on
      mobile, else the width animation's value (unknown while it moves). */
  function DrawnWidth(s: State): (w: Option<int>)
    ensures s.layout.isMobile ==> w == Some(Layout.SIDEBAR_EXPANDED_WIDTH)
    ensures !s.layout.isMobile ==> w == s.width.Current()
  {
    if s.layout.isMobile then Some(Layout.SIDEBAR_EXPANDED_WIDTH) else s.width.Current()
  }

  /** What is rendered, in the four variants a reader can tell apart. */
  datatype Variant = DesktopExpanded | DesktopCompact | MobileClosed | MobileOpen

  function VariantOf(s: State): (v: Variant)
    ensures v == DesktopExpanded <==> !s.layout.isMobile && s.layout.isExpanded
    ensures v == DesktopCompact <==> !s.layout.isMobile && !s.layout.isExpanded
    ensures v == MobileClosed <==> s.layout.isMobile && !s.drawer.visible
    ensures v == MobileOpen <==> s.layout.isMobile && s.drawer.visible
  {
    if s.layout.isMobile then (if s.drawer.visible then MobileOpen else MobileClosed)
    else if s.layout.isExpanded then DesktopExpanded
    else DesktopCompact
  }

  /** After a resize to width `w` the variant follows the width band alone,
      and among the mobile variants the drawer's visibility, which a resize
      does not touch. */
  lemma VariantAfterResize(s: State, w: int)
    ensures var v := VariantOf(HandleResize(s, w));
      && (v == DesktopExpanded <==> Layout.BandOf(w) == Layout.Wide)
      && (v == DesktopCompact <==> Layout.BandOf(w) == Layout.Tablet)
      && (v == MobileOpen <==> Layout.BandOf(w) == Layout.Phone && s.drawer.visible)
      && (v == MobileClosed <==> Layout.BandOf(w) == Layout.Phone && !s.drawer.visible)
  {
  }

  /** The seven rows as drawn. */
  function Rows(s: State): (rows: seq<Menu.ItemView>)
    ensures |rows| == |Menu.Items|
    ensures forall i :: 0 <= i < |rows| ==> rows[i] == Menu.View(Menu.Items[i], i, s.selection, s.layout.isExpanded)
  {
    seq(|Menu.Items|, i requires 0 <= i < |Menu.Items| => Menu.View(Menu.Items[i], i, s.selection, s.layout.isExpanded))
  }

  /** How the theme switch is drawn: the knob's horizontal offset, the
      knob's glyph, and the mode caption (shown only when expanded). */
  datatype SwitchView = SwitchView(knobOffset: int, glyph: string, caption: Option<string>)

  function Switch(s: State): (v: SwitchView)
    ensures v.knobOffset == 20 <==> Theme.IsDark(s.theme)
    ensures v.knobOffset == 0 <==> !Theme.IsDark(s.theme)
    ensures v.glyph == (if Theme.IsDark(s.theme) then "moon" else "sunny")
    ensures v.caption.Some? <==> s.layout.isExpanded
    ensures v.caption.Some? ==> v.caption.value == (if Theme.IsDark(s.theme) then "Dark Mode" else "Light Mode")
  {
    var dark := Theme.IsDark(s.theme);
    SwitchView(
      if dark then 20 else 0,
      if dark then "moon" else "sunny",
      if s.layout.isExpanded then Some(if dark then "Dark Mode" else "Light Mode") else None)
  }

  // ---------------------------------------------------------------------
  // Properties

  /** On mobile the drawer is drawn at the expanded width whatever the width
      animation is doing; on desktop, once that animation has finished, the
      drawn width is 260 exactly when expanded and 72 exactly when compact. */
  lemma DrawnWidthRule(s: State, windowWidth: int)
    ensures var r := HandleResize(s, windowWidth);
      r.layout.isMobile ==> DrawnWidth(r) == Some(260)
    ensures var r := Step(HandleResize(s, windowWidth), WidthAnimEnd(true));
      && (windowWidth >= 1024 ==> DrawnWidth(r) == Some(260))
      && (768 <= windowWidth < 1024 ==> DrawnWidth(r) == Some(72))
      && (windowWidth < 768 ==> DrawnWidth(r) == Some(260))
  {
  }

  /** Labels are drawn on every row exactly when the sidebar is expanded,
      which on mobile is always. */
  lemma LabelsExactlyWhenExpanded(s: State, i: int, windowWidth: int)
    requires 0 <= i < |Menu.Items|
    ensures Rows(s)[i].text.Some? <==> s.layout.isExpanded
    ensures Rows(HandleResize(s, windowWidth))[i].text.Some? <==> !(768 <= windowWidth < 1024)
    ensures Rows(HandleResize(s, windowWidth))[i].text.Some? ==> Rows(HandleResize(s, windowWidth))[i].text.value == Menu.Items[i].caption
  {
  }

  /** Presses and hovers on a reachable row change only their own field of
      the selection: layout, width animation, drawer, theme and the other
      selection field are left exactly as they were. */
  lemma SelectionEvents(s: State, i: int)
    requires IsItem(i) && MenuReachable(s)
    ensures Step(s, ItemPress(i)) == s.(selection := Menu.Selection(i, s.selection.hovered))
    ensures Step(s, ItemHoverIn(i)) == s.(selection := Menu.Selection(s.selection.active, Some(i)))
    ensures Step(s, ItemHoverOut(i)) == s.(selection := Menu.Selection(s.selection.active, None))
  {
  }

  /** Which element receives an input. On desktop there is neither a
      hamburger nor an overlay. On mobile the full-screen overlay covers the
      hamburger while visible, and while hidden it lets no touch reach the
      rows or the theme switch inside it, so only the hamburger responds.
      Rows exist only for the seven items. */
  lemma Routing(s: State, t: Drawer.Target, i: int)
    ensures !s.layout.isMobile ==> Step(s, Hamburger) == s && Step(s, OverlayPress(t)) == s
    ensures s.drawer.visible ==> Step(s, Hamburger) == s
    ensures s.layout.isMobile && !s.drawer.visible ==>
      && Drawer.PhaseOf(Step(s, Hamburger).drawer) == Drawer.Opening
      && Step(s, ItemPress(i)) == s
      && Step(s, ItemHoverIn(i)) == s
      && Step(s, ItemHoverOut(i)) == s
      && Step(s, ThemeSwitch) == s
      && Step(s, OverlayPress(t)) == s
    ensures s.layout.isMobile && s.drawer.visible ==>
      Step(s, OverlayPress(t)) == s.(drawer := Drawer.Press(s.drawer, t))
    ensures !IsItem(i) ==> Step(s, ItemPress(i)) == s && Step(s, ItemHoverIn(i)) == s
  {
  }

  /** The theme switch, where reachable, toggles the provider's theme and
      nothing else, which moves the knob and swaps glyph and caption; a
      platform scheme change after that does not move it back. */
  lemma ThemeSwitchEvents(s: State, sc: Option<Theme.Scheme>)
    requires MenuReachable(s)
    ensures Step(s, ThemeSwitch) == s.(theme := Theme.Toggle(s.theme))
    ensures Theme.IsDark(Step(s, ThemeSwitch).theme) == !Theme.IsDark(s.theme)
    ensures Switch(Step(s, ThemeSwitch)).knobOffset != Switch(s).knobOffset
    ensures Switch(Step(s, ThemeSwitch)).glyph != Switch(s).glyph
    ensures Switch(Step(Step(s, ThemeSwitch), SchemeChange(sc))) == Switch(Step(s, ThemeSwitch))
  {
  }

  /** A tap in the drawer content, including on a menu row or the theme
      switch, never closes the drawer. */
  lemma ContentTapKeepsDrawer(s: State, i: int)
    ensures Step(s, OverlayPress(Drawer.Content)).drawer == s.drawer
    ensures Step(s, ItemPress(i)).drawer == s.drawer
    ensures Step(s, ThemeSwitch).drawer == s.drawer
  {
  }

  /** What holds in every state reachable from a mount: the flags agree with
      each other and the width animation's target agrees with the flags, the
      drawer keeps its own invariant, and the selection names drawn rows. */
  ghost predicate Inv(s: State) {
    && (s.layout.isMobile ==> s.layout.isExpanded)
    && s.width.target == Layout.TargetWidth(s.layout)
    && Drawer.Inv(s.drawer)
    && IsItem(s.selection.active)
    && (s.selection.hovered.Some? ==> IsItem(s.selection.hovered.value))
  }

  lemma MountInv(p: Theme.Provider, windowWidth: int)
    ensures Mount(Some(p), windowWidth).Ok?
    ensures Inv(Mount(Some(p), windowWidth).value)
  {
    Drawer.InitialInv();
  }

  lemma StepInv(s: State, e: Event)
    requires Inv(s)
    ensures Inv(Step(s, e))
  {
    match e
    case Hamburger => Drawer.StepInv(s.drawer, Drawer.ShowEv);
    case OverlayPress(t) => Drawer.StepInv(s.drawer, Drawer.PressEv(t));
    case AnimationFrame => Drawer.StepInv(s.drawer, Drawer.FrameEv);
    case DrawerPairEnd(f) => Drawer.StepInv(s.drawer, Drawer.PairEndEv(f));
    case _ =>
  }

  lemma {:induction false} RunInv(s: State, es: seq<Event>)
    requires Inv(s)
    ensures Inv(Run(s, es))
    decreases |es|
  {
    if |es| > 0 {
      StepInv(s, es[0]);
      RunInv(Step(s, es[0]), es[1..]);
    }
  }

  /** After any inputs following a mount: the selected row (and the hovered
      one, if any) is one of the seven, a mobile sidebar is expanded, and a
      finished width animation has the sidebar at 260 exactly when expanded. */
  lemma Reachable(p: Theme.Provider, windowWidth: int, es: seq<Event>)
    ensures var s := Run(Mount(Some(p), windowWidth).value, es);
      && 0 <= s.selection.active < 7
      && (s.selection.hovered.Some? ==> 0 <= s.selection.hovered.value < 7)
      && (s.layout.isMobile ==> s.layout.isExpanded)
      && (DrawnWidth(s) == Some(260) <==> s.layout.isExpanded && (s.layout.isMobile || s.width.status == Resting))
  {
    MountInv(p, windowWidth);
    RunInv(Mount(Some(p), windowWidth).value, es);
  }

  /** The end-to-end walk: a wide window, then a medium one, then a narrow
      one; open the drawer and close it again from the backdrop. */
  lemma Walkthrough(p: Theme.Provider)
    ensures var s0 := Mount(Some(p), 1200).value;
      && VariantOf(s0) == DesktopExpanded
      && var s1 := Step(s0, Resize(900));
      && VariantOf(s1) == DesktopCompact
      && var s2 := Step(s1, Resize(500));
      && VariantOf(s2) == MobileClosed && Drawer.PhaseOf(s2.drawer) == Drawer.Closed
      && var s3 := Step(s2, Hamburger);
      && Drawer.PhaseOf(s3.drawer) == Drawer.Opening
      && var s4 := Step(Step(s3, AnimationFrame), DrawerPairEnd(true));
      && Drawer.PhaseOf(s4.drawer) == Drawer.Open && VariantOf(s4) == MobileOpen
      && var s5 := Step(s4, OverlayPress(Drawer.Backdrop));
      && Drawer.PhaseOf(s5.drawer) == Drawer.Closing
      && var s6 := Step(s5, DrawerPairEnd(true));
      && Drawer.PhaseOf(s6.drawer) == Drawer.Closed && VariantOf(s6) == MobileClosed
      && s6.drawer.slide.Current() == Some(Drawer.HIDDEN_OFFSET)
  {
  }
}
