/** The sidebar's responsive layout: how the window width selects the mobile
    drawer, the expanded desktop sidebar or the compact (icon-only) one, and
    which width the sidebar's width animation is sent towards. */
module Layout {

  /** Sidebar widths from the layout tokens. */
  const SIDEBAR_EXPANDED_WIDTH: int := 260
  const SIDEBAR_COMPACT_WIDTH: int := 72

  /** Below this width the sidebar becomes a drawer. */
  const MOBILE_BREAKPOINT: int := 768
  /** From this width on the desktop sidebar shows its labels. */
  const EXPANDED_THRESHOLD: int := 1024

  /** The two flags the resize handler stores. */
  datatype Resolved = Resolved(isMobile: bool, isExpanded: bool)

  /** The three width bands, written independently of the resize handler
      as a reference classification. */
  datatype Band = Phone | Tablet | Wide

  function BandOf(width: int): Band {
    if width < 768 then Phone
    else if width < 1024 then Tablet
    else Wide
  }

  /** `handleResize`: derive the layout flags from the window width. */
  function Resolve(width: int): (l: Resolved)
    ensures l.isMobile <==> BandOf(width) == Phone
    ensures !l.isExpanded <==> BandOf(width) == Tablet
    ensures l.isMobile ==> l.isExpanded
  {
    var isMobileView := width < MOBILE_BREAKPOINT;
    Resolved(isMobileView, isMobileView || width >= EXPANDED_THRESHOLD)
  }

  /** The value the width animation is sent towards after a resize. */
  function TargetWidth(l: Resolved): (w: int)
    ensures w == SIDEBAR_EXPANDED_WIDTH <==> l.isExpanded
    ensures w == SIDEBAR_COMPACT_WIDTH <==> !l.isExpanded
  {
    if l.isExpanded then SIDEBAR_EXPANDED_WIDTH else SIDEBAR_COMPACT_WIDTH
  }

  /** The boundary values fall on the side that includes them: 768 is
      already desktop and 1024 already expanded. */
  lemma Boundaries()
    ensures Resolve(767) == Resolved(true, true)
    ensures Resolve(768) == Resolved(false, false)
    ensures Resolve(1023) == Resolved(false, false)
    ensures Resolve(1024) == Resolved(false, true)
  {
  }

  /** The three bands stated over all widths: mobile exactly below 768,
      compact exactly in [768, 1024), expanded desktop exactly from 1024. */
  lemma Bands(width: int)
    ensures Resolve(width).isMobile <==> width < 768
    ensures !Resolve(width).isExpanded <==> 768 <= width < 1024
    ensures (!Resolve(width).isMobile && Resolve(width).isExpanded) <==> width >= 1024
  {
  }

  /** Widening the window never turns a desktop layout back into a mobile
      one, and never collapses an expanded desktop sidebar. */
  lemma Monotone(w1: int, w2: int)
    requires w1 <= w2
    ensures Resolve(w1).isMobile || !Resolve(w2).isMobile
    ensures !Resolve(w1).isMobile && Resolve(w1).isExpanded ==> Resolve(w2).isExpanded
  {
  }
}
