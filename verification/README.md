# Dashboard sidebar, theme and counter — a Dafny model

This project models the behaviour of a cross-platform dashboard shell (React
Native / web). It covers three parts. The main one is the navigation sidebar.
It has a responsive layout: a mobile drawer below 768 px, a compact icon-only
sidebar from 768 px up to 1024 px, and an expanded sidebar from 1024 px. It has
an animated mobile drawer, a fixed seven-item menu with selection and hover,
and per-item presentation rules. The second part is the theme provider: a
manual light/dark choice that overrides the platform colour scheme, a toggle,
and an accessor that fails outside a provider. The third part is a demo
counter.

All modules are pure functions over immutable records. Each user input or
platform callback is an event. The modules are:

- `Optional`: `Option` (the sources' `null`/`undefined`) and `Result` (a thrown
  error).
- `Animation`: an animated value. It is described by its last target and
  whether it rests there, is running towards it, or was stopped short.
  Spring and timing curves are not modelled.
- `Layout`: the width tokens (260 and 72), the breakpoints (768 and 1024),
  the resize handler's flags and the target width.
- `Drawer`: the mobile drawer's visibility flag, its slide and fade values,
  the frame requested by the hamburger, and the pending close callback. The
  phases Closed, Opening, Open and Closing are derived from these fields
  (`Drawer.PhaseOf`) rather than stored.
- `Menu`: the item table, the selection and hover handlers, and the per-row
  view: glyph, tint, highlight, row styles, badge and label.
- `Sidebar`: the composed component, including the theme provider it reads
  and the theme switch it draws. It routes each input to the element that
  can receive it in the current layout and proves invariants over every
  event sequence after mount.
- `Theme`: the theme provider and `useTheme`.
- `Counter`: the counter.

The model assumes one thing about the animation library, which is not part
of this model. Giving an animated value a new instruction stops the
animation in flight. That happens on `setValue` in `showSidebar`, or on a
new start in the frame callback or in `hideSidebar`. The stopped animation
calls its completion callback with `finished: false`. The drawer's close
callback ignores that flag, so a superseded close pair still sets the
visibility flag to false at that moment (`Drawer.Supersede`). Two
consequences are proved:

- A second backdrop press during a close hides the overlay at once
  (`Drawer.SecondBackdropPressHidesAtOnce`).
- Suppose the backdrop is pressed after the hamburger but before the
  requested frame arrives. The frame then cuts the close short. The drawer
  then slides in behind an overlay that ignores touches
  (`Drawer.BackdropBeforeFrame`).

Four behaviours of the code worth noting:

- The active icon variant is used only for the selected item, not for a
  hovered one. Hover changes only the tint and the
  highlight.
- A badge of 0 is not suppressed. `badge && …` yields the bare number 0,
  modelled as `BareZero`. No item in the table has badge 0.
- Out-of-range indices are not validated by the press handler. In the model
  they cannot occur, because only the seven drawn rows produce presses.
- The Closing phase can be entered from Opening as well as from Open. The
  overlay takes touches as soon as its visibility flag is set.

## Model

| member | source | states |
|---|---|---|
| Layout.Resolve | components/Sidebar.tsx:50-56 | the width is mobile exactly below 768 and compact exactly in [768, 1024); a mobile layout is always expanded |
| Layout.TargetWidth | components/Sidebar.tsx:58-59 | the width animation heads for 260 exactly when expanded and for 72 exactly when compact |
| Layout.Bands | components/Sidebar.tsx:25-25 | over all widths: mobile iff below 768, compact iff 768 <= w < 1024, expanded desktop iff w >= 1024 |
| Layout.Boundaries | components/Sidebar.tsx:52-53 | 767 is mobile, 768 and 1023 are compact desktop, 1024 is expanded desktop |
| Layout.Monotone | components/Sidebar.tsx:52-53 | widening the window never returns to mobile and never collapses an expanded desktop sidebar |
| Animation.SetValue | components/Sidebar.tsx:70-71 | after a reset the value is known exactly |
| Animation.AnimateTo | components/Sidebar.tsx:78-90 | a started animation heads for its target and its value is unknown until it ends |
| Animation.End | components/Sidebar.tsx:107-109 | a finished animation rests at its target; an unfinished one stops short; with nothing in flight nothing changes |
| Drawer.PhaseOf | components/Sidebar.tsx:612-637 | the phase read off the drawer fields: Closed exactly when the overlay is not visible; Open exactly when it is visible, no close is pending, no frame is queued and the slide rests at offset 0; in every reachable state (Drawer.Reachable) Closing is exactly a visible overlay sliding towards -260 |
| Drawer.Supersede | components/Sidebar.tsx:107-109 | a newer instruction stops the pair in flight, and a pending close callback then hides the overlay |
| Drawer.Show | components/Sidebar.tsx:68-92 | from any state: visible, slide reset to -260, fade reset to 0, one more frame requested, no close pending |
| Drawer.Frame | components/Sidebar.tsx:77-91 | a requested frame sends slide to 0 and fade to 1; with none requested nothing changes |
| Drawer.Hide | components/Sidebar.tsx:94-110 | slide heads for -260 and fade for 0, the close callback is pending, and visibility is not changed by the hide itself |
| Drawer.PairEnd | components/Sidebar.tsx:107-109 | when the pair ends, finished or not, a pending close callback hides the overlay |
| Drawer.Press | components/Sidebar.tsx:612-637 | an invisible overlay ignores presses, content presses are swallowed, and a backdrop press hides |
| Drawer.OpeningEndsOpen | components/Sidebar.tsx:77-91 | in any state satisfying the drawer invariant, a finished opening pair with no frame left to come gives Open, resting at 0 with an opaque backdrop |
| Drawer.ShowFrameEndIsOpen | components/Sidebar.tsx:68-91 | from any state with no frame already queued, hamburger, frame and a finished pair give Open at offset 0 |
| Drawer.ShowThenFrame | components/Sidebar.tsx:68-91 | show then frame is Opening, visible, with slide heading to 0 and fade to 1, from any state |
| Drawer.HideThenEnd | components/Sidebar.tsx:94-110 | from Opening or Open a hide is Closing and still visible; its end gives Closed whether finished or not; a finished close rests at -260 and 0 |
| Drawer.OnlyShowReveals | components/Sidebar.tsx:74-74 | only the show request makes the overlay visible |
| Drawer.OnlyCloseCallbackHides | components/Sidebar.tsx:107-109 | the overlay becomes invisible only when a pending close callback runs |
| Drawer.OnlyBackdropStartsClosing | components/Sidebar.tsx:621-624 | the Closing phase is entered only by a backdrop press |
| Drawer.ContentPressSwallowed | components/Sidebar.tsx:617-635 | a content press never changes the drawer, and an invisible overlay ignores every press |
| Drawer.SecondBackdropPressHidesAtOnce | components/Sidebar.tsx:94-110 | a second backdrop press while closing hides at once and starts a new close |
| Drawer.BackdropBeforeFrame | components/Sidebar.tsx:68-110 | a backdrop press before the opening frame leaves the drawer sliding in behind an overlay that ignores touches |
| Drawer.InitialInv | components/Sidebar.tsx:39-47 | the mount state satisfies the drawer invariant and is Closed |
| Drawer.StepInv | components/Sidebar.tsx:68-110 | every drawer event keeps slide and fade paired (0 with 1, -260 with 0, same status), and a close callback is pending exactly while the slide runs towards -260 |
| Drawer.RunInv | components/Sidebar.tsx:68-110 | the drawer invariant holds after any sequence of drawer events |
| Drawer.Reachable | components/Sidebar.tsx:39-110 | in every reachable drawer state the fade heads for 1 exactly when the slide heads for 0, the Closing phase is exactly a visible overlay whose slide runs towards -260, and a pending close ends at -260 |
| Menu.Press | components/Sidebar.tsx:203-203 | pressing item i selects i and leaves the hover unchanged |
| Menu.HoverIn | components/Sidebar.tsx:204-204 | hovering item j sets the hover to j and leaves the selection unchanged |
| Menu.HoverOut | components/Sidebar.tsx:205-205 | leaving any item clears the hover and leaves the selection unchanged |
| Menu.IconName | components/Sidebar.tsx:218-219 | only the selected item shows its active glyph, falling back to the plain glyph when that is missing or empty |
| Menu.BadgeOf | components/Sidebar.tsx:223-227 | the bubble is drawn iff the badge is truthy and shows its count; null gives nothing, 0 gives a bare 0 |
| Menu.View | components/Sidebar.tsx:200-236 | accent tint, icon highlight and accented label iff the row is selected or hovered; row styles follow selection, hover and compactness; label iff expanded |
| Menu.PressHoverIndependent | components/Sidebar.tsx:203-205 | press and hover commute; hover-out does not depend on which item it comes from; pressing twice equals pressing once |
| Menu.HoverDoesNotSwitchIcon | components/Sidebar.tsx:216-221 | hover never changes the glyph but always gives the accent tint |
| Menu.LabelsFollowLayout | components/Sidebar.tsx:229-234 | label visibility and the compact style do not depend on selection or hover |
| Menu.TableFacts | components/Sidebar.tsx:112-155 | seven items, each with an active glyph; only "Files" (index 5) has a badge, showing 2; "Home" has none |
| Menu.AtMostOneSelectedAndHovered | components/Sidebar.tsx:209-210 | exactly the selected row has the selected style, and at most one row has the hover style |
| Theme.Mount | contexts/ThemeContext.tsx:13-14 | a new provider has no manual choice and follows the platform |
| Theme.IsDark | contexts/ThemeContext.tsx:16-16 | dark iff the manual choice is dark, or, with no manual choice, iff the platform scheme is dark |
| Theme.Toggle | contexts/ThemeContext.tsx:18-20 | toggling flips the theme and always leaves a manual choice |
| Theme.SetManual | contexts/ThemeContext.tsx:14-14 | the manual choice becomes the given one (possibly none) |
| Theme.SystemChanged | contexts/ThemeContext.tsx:13-13 | a platform change replaces the platform scheme only |
| Theme.UseTheme | contexts/ThemeContext.tsx:29-34 | fails with the provider error iff there is no provider; otherwise returns the provider's value |
| Theme.NoSignalIsLight | contexts/ThemeContext.tsx:16-16 | no platform signal or a light one gives light; a dark one gives dark |
| Theme.ManualWins | contexts/ThemeContext.tsx:16-16 | with a manual choice the platform scheme has no effect |
| Theme.ToggleTwice | contexts/ThemeContext.tsx:16-20 | two toggles restore the theme, now as a manual choice that platform changes do not affect |
| Theme.ClearRestoresSystem | contexts/ThemeContext.tsx:7-16 | clearing the manual choice makes the theme follow the platform again |
| Theme.TogglesFlipByParity | contexts/ThemeContext.tsx:18-20 | n toggles flip the theme iff n is odd |
| Theme.OverrideIgnoresSystem | contexts/ThemeContext.tsx:13-20 | once a manual choice exists and is never cleared, any event sequence gives the same theme whatever the platform scheme |
| Counter.Increment | components/Counter.tsx:23-23 | "+" adds exactly one |
| Counter.Decrement | components/Counter.tsx:16-16 | "-" subtracts exactly one, with no lower bound |
| Counter.StepsCancel | components/Counter.tsx:16-23 | "+" then "-", and "-" then "+", return the count to its prior value |
| Counter.RunCounts | components/Counter.tsx:5-23 | after any presses the count is the start plus the "+" presses minus the "-" presses |
| Counter.NoLowerBound | components/Counter.tsx:5-16 | from the initial 0, n presses of "-" reach -n |
| Sidebar.PreMount | components/Sidebar.tsx:37-48 | the first render is desktop and expanded, width 260 at rest, drawer Closed, item 0 selected, nothing hovered |
| Sidebar.HandleResize | components/Sidebar.tsx:50-66 | a resize sets both flags from the width, sends the width animation to 260 or 72 to match, and leaves drawer and selection alone |
| Sidebar.Mount | components/Sidebar.tsx:36-66 | mounting fails iff there is no theme provider; otherwise the layout matches the width, the drawer is Closed, item 0 is selected, nothing is hovered and the provider is kept |
| Sidebar.Switch | components/Sidebar.tsx:157-247 | the switch knob sits at 20 with the moon glyph exactly when dark, at 0 with the sun otherwise; the mode caption shows only when expanded and names the current mode |
| Sidebar.DrawnWidth | components/Sidebar.tsx:182-186 | on mobile the drawn width is always 260; on desktop it is the width animation's value |
| Sidebar.VariantOf | components/Sidebar.tsx:590-644 | desktop expanded or compact exactly by `isExpanded` when not mobile; on mobile the open variant exactly when the overlay is visible |
| Sidebar.VariantAfterResize | components/Sidebar.tsx:50-63 | after a resize the variant is expanded desktop exactly from 1024, compact exactly in [768, 1024), and a mobile variant below 768 that keeps the drawer's visibility |
| Sidebar.Rows | components/Sidebar.tsx:200-236 | one row view per menu item, drawn under the current selection and expansion |
| Sidebar.DrawnWidthRule | components/Sidebar.tsx:58-59 | once the width animation finishes, a resize to w draws 260 for w >= 1024 or w < 768 and 72 for 768 <= w < 1024 |
| Sidebar.LabelsExactlyWhenExpanded | components/Sidebar.tsx:229-234 | every row shows its label exactly when expanded, i.e. exactly outside [768, 1024) |
| Sidebar.SelectionEvents | components/Sidebar.tsx:201-205 | a reachable row's press and hover change only their own selection field; layout, width, drawer, theme and the other field stay as they were |
| Sidebar.Routing | components/Sidebar.tsx:590-643 | desktop has no hamburger and no overlay; a visible overlay covers the hamburger; a hidden overlay passes no touch to rows or switch, so only the hamburger responds, giving Opening; presses on the visible overlay go to the drawer |
| Sidebar.ThemeSwitchEvents | components/Sidebar.tsx:157-176 | a reachable switch press toggles the theme and nothing else, moving the knob and swapping the glyph; a later platform scheme change does not move it back |
| Sidebar.ContentTapKeepsDrawer | components/Sidebar.tsx:633-635 | content taps, row presses and switch presses never change the drawer |
| Sidebar.MountInv | components/Sidebar.tsx:36-66 | the mounted state satisfies the sidebar invariant |
| Sidebar.StepInv | components/Sidebar.tsx:590-643 | every routed input keeps the flags consistent, the width target matching the flags, the drawer invariant, and a drawn row selected |
| Sidebar.RunInv | components/Sidebar.tsx:590-643 | the sidebar invariant holds after any input sequence |
| Sidebar.Reachable | components/Sidebar.tsx:36-110 | after any inputs: selected and hovered rows are among the seven, mobile is expanded, and a settled sidebar is 260 wide iff expanded |
| Sidebar.Walkthrough | components/Sidebar.tsx:50-110 | 1200 is expanded, 900 compact, 500 mobile Closed; show gives Opening then Open; a backdrop press gives Closing then Closed, hidden at -260 |

## Left out

- Spring and timing curves (tension, friction, durations, interpolation) and native-driver thread placement. An animation is only its target and an end event.
- The frame deferral is an explicit frame event. The queue of requested frames is a count.
- Window width and platform colour scheme are inputs. The width is an integer, whereas the platform reports fractional pixels.
- All styles, colour, spacing, shadow and typography tokens except the two sidebar widths. Also left out: icon, image and text rendering, the profile image, and static profile and storage text.
- The logo text and the profile and storage sections. They follow the same expanded-only rule as the menu labels and are output only.
- The separate end moments of the slide spring and the fade timing. The model gives the pair one end event, the moment the parallel animation's callback runs.
- Counter.Increment: the count is an unbounded integer; the program's count is a JavaScript number, so beyond 2^53 adding one no longer changes it.
- Counter.Decrement: likewise, below -2^53 subtracting one no longer changes the JavaScript number.
- Counter.NoLowerBound: holds for the program's number only while n is at most 2^53, for the same reason.
- The pressed row style shown while a finger is down on a row. It is transient touch feedback, not state; the other row styles are in `Menu.ItemView`.
- React hooks, context plumbing and re-renders. State updates are applied in the order they are issued.
- The app entry screen and the bundler configuration, which hold no logic.
- The counter's styles.
- The colours chosen from `isDark` for every styled element.
