/** The sidebar's menu: the fixed table of seven items, the selected and
    hovered item, and how each item is drawn from them. */
module Menu {
  import opened Optional

  /** One entry of the menu table; `activeIcon` may be absent and `badge`
      may be `null`. */
  datatype MenuItem = MenuItem(icon: string, activeIcon: Option<string>, caption: string, badge: Option<int>)

  /** The menu table, in display order. */
  const Items: seq<MenuItem> := [
    MenuItem("home-outline", Some("home-sharp"), "Home", None),
    MenuItem("stats-chart-outline", Some("stats-chart"), "Analytics", None),
    MenuItem("card-outline", Some("card"), "Cards", None),
    MenuItem("paper-plane-outline", Some("paper-plane"), "Send", None),
    MenuItem("people-outline", Some("people"), "Users", None),
    MenuItem("folder-outline", Some("folder"), "Files", Some(2)),
    MenuItem("settings-outline", Some("settings-sharp"), "Settings", None)
  ]

  /** `activeItem` (an index) and `hoveredItem` (an index or `null`). */
  datatype Selection = Selection(active: int, hovered: Option<int>)

  const InitialSelection: Selection := Selection(0, None)

  /** Pressing item `i` selects it; hovering is untouched. */
  function Press(s: Selection, i: int): (r: Selection)
    ensures r.active == i && r.hovered == s.hovered
  {
    s.(active := i)
  }

  /** The pointer enters item `j`. */
  function HoverIn(s: Selection, j: int): (r: Selection)
    ensures r.hovered == Some(j) && r.active == s.active
  {
    s.(hovered := Some(j))
  }

  /** The pointer leaves item `j`: the hover is cleared whichever item was hovered. */
  function HoverOut(s: Selection, j: int): (r: Selection)
    ensures r.hovered.None? && r.active == s.active
  {
    s.(hovered := None)
  }

  // ---------------------------------------------------------------------
  // Presentation of one item

  /** JavaScript truthiness of an optional string: absent and "" are falsy. */
  predicate TruthyText(t: Option<string>) {
    t.Some? && t.value != ""
  }

  /** JavaScript truthiness of a number-or-null: `null` and 0 are falsy. */
  predicate TruthyCount(n: Option<int>) {
    n.Some? && n.value != 0
  }

  /** The two icon colours: the accent blue and the muted grey. */
  datatype Tint = Accent | Muted

  /** What the `badge && <bubble>` expression yields: nothing for `null`,
      the bare number for 0, the bubble with the count otherwise. */
  datatype BadgeRender = NoBadge | BareZero | Bubble(count: int)

  /** How one item is drawn. */
  datatype ItemView = ItemView(
    icon: string,           // the icon glyph
    tint: Tint,             // the icon colour
    iconHighlight: bool,    // the highlighted icon container
    hoverStyle: bool,       // the hovered row style
    activeStyle: bool,      // the selected row style
    compactStyle: bool,     // the icon-only row style
    badge: BadgeRender,
    text: Option<string>,   // the label text, when shown
    labelAccent: bool       // the accented label style
  )

  /** Whether item `i` is the selected or the hovered one. */
  predicate Highlighted(i: int, s: Selection) {
    s.active == i || s.hovered == Some(i)
  }

  /** The glyph: the active variant (falling back to the plain one when
      missing or empty) only for the selected item. */
  function IconName(item: MenuItem, i: int, s: Selection): (r: string)
    ensures s.active != i ==> r == item.icon
    ensures s.active == i && TruthyText(item.activeIcon) ==> r == item.activeIcon.value
    ensures s.active == i && !TruthyText(item.activeIcon) ==> r == item.icon
  {
    if s.active == i then (if TruthyText(item.activeIcon) then item.activeIcon.value else item.icon)
    else item.icon
  }

  function BadgeOf(item: MenuItem): (b: BadgeRender)
    ensures b.Bubble? <==> TruthyCount(item.badge)
    ensures b.Bubble? ==> b.count == item.badge.value
    ensures b == BareZero <==> item.badge == Some(0)
    ensures b == NoBadge <==> item.badge.None?
  {
    match item.badge
    case None => NoBadge
    case Some(n) => if n == 0 then BareZero else Bubble(n)
  }

  /** Item `i` drawn under selection `s`, in the expanded or compact sidebar. */
  function View(item: MenuItem, i: int, s: Selection, expanded: bool): (v: ItemView)
    ensures v.tint == Accent <==> Highlighted(i, s)
    ensures v.iconHighlight <==> Highlighted(i, s)
    ensures v.labelAccent <==> Highlighted(i, s)
    ensures v.activeStyle <==> s.active == i
    ensures v.hoverStyle <==> s.hovered == Some(i)
    ensures v.compactStyle <==> !expanded
    ensures v.text.Some? <==> expanded
    ensures v.text.Some? ==> v.text.value == item.caption
    ensures v.icon == IconName(item, i, s)
    ensures v.badge == BadgeOf(item)
  {
    var lit := Highlighted(i, s);
    ItemView(
      icon := IconName(item, i, s),
      tint := if lit then Accent else Muted,
      iconHighlight := lit,
      hoverStyle := s.hovered == Some(i),
      activeStyle := s.active == i,
      compactStyle := !expanded,
      badge := BadgeOf(item),
      text := if expanded then Some(item.caption) else None,
      labelAccent := lit)
  }

  // ---------------------------------------------------------------------
  // Properties

  /** Press and hover act on separate fields, so they commute, and a
      hover-out clears the hover whichever item it comes from. */
  lemma PressHoverIndependent(s: Selection, i: int, j: int, k: int)
    ensures Press(HoverIn(s, j), i) == HoverIn(Press(s, i), j)
    ensures Press(HoverOut(s, j), i) == HoverOut(Press(s, i), j)
    ensures HoverOut(s, j) == HoverOut(s, k)
    ensures Press(Press(s, i), i) == Press(s, i)
  {
  }

  /** Hovering alone never switches the glyph; it only tints and highlights. */
  lemma HoverDoesNotSwitchIcon(item: MenuItem, i: int, s: Selection, h: Option<int>, expanded: bool)
    ensures View(item, i, s.(hovered := h), expanded).icon == View(item, i, s, expanded).icon
    ensures s.active != i ==> View(item, i, s.(hovered := Some(i)), expanded).icon == item.icon
    ensures View(item, i, s.(hovered := Some(i)), expanded).tint == Accent
  {
  }

  /** Whether labels show depends only on the layout, never on the selection. */
  lemma LabelsFollowLayout(item: MenuItem, i: int, s: Selection, s': Selection, expanded: bool)
    ensures View(item, i, s, expanded).text == View(item, i, s', expanded).text
    ensures View(item, i, s, expanded).compactStyle == View(item, i, s', expanded).compactStyle
  {
  }

  /** Over the whole table: every item has an active glyph, only
      "Files" carries a badge, and its bubble shows 2. */
  lemma TableFacts()
    ensures |Items| == 7
    ensures forall i :: 0 <= i < |Items| ==> TruthyText(Items[i].activeIcon)
    ensures forall i :: 0 <= i < |Items| ==> (BadgeOf(Items[i]).Bubble? <==> i == 5)
    ensures forall i :: 0 <= i < |Items| ==> BadgeOf(Items[i]) != BareZero
    ensures Items[5].caption == "Files" && BadgeOf(Items[5]) == Bubble(2)
    ensures Items[0].caption == "Home" && BadgeOf(Items[0]) == NoBadge
  {
  }

  /** Under any selection exactly the selected row has the selected style,
      and at most one row (the hovered one) has the hover style. */
  lemma AtMostOneSelectedAndHovered(s: Selection, expanded: bool, i: int, j: int)
    requires 0 <= i < |Items| && 0 <= j < |Items|
    ensures View(Items[i], i, s, expanded).activeStyle <==> i == s.active
    ensures View(Items[i], i, s, expanded).hoverStyle && View(Items[j], j, s, expanded).hoverStyle ==> i == j
  {
  }
}
