/** The navigation menu: a hamburger toggle and a navbar whose "active"
    classes move together, and a layout chosen by the 768px breakpoint. */
module NavigationMenu {

  /** The widest viewport, in CSS pixels, that still gets the mobile layout. */
  const Breakpoint: int := 768

  /** Inline style values the handlers write; `Unset` is whatever the page's
      stylesheet gives before any handler has run. */
  datatype Display = Unset | Flex | NoDisplay | Block
  datatype Direction = DirectionUnset | Row | Column
  datatype Position = PositionUnset | Static | Absolute
  /** top: 100% and left: 0 (just under the header). */
  datatype Anchor = AnchorUnset | BelowHeader
  datatype Width = WidthUnset | Auto | FullWidth
  datatype Background = BackgroundUnset | Transparent | Themed
  datatype Padding = PaddingUnset | NoPadding | Padded

  /** The navbar's inline style. */
  datatype NavStyle = NavStyle(
    display: Display, direction: Direction, position: Position, anchor: Anchor,
    width: Width, background: Background, padding: Padding)

  const Untouched: NavStyle :=
    NavStyle(Unset, DirectionUnset, PositionUnset, AnchorUnset, WidthUnset, BackgroundUnset, PaddingUnset)

  /** The horizontal, in-flow desktop layout. */
  predicate RowLayout(s: NavStyle)
  {
    s.display == Flex && s.direction == Row && s.position == Static &&
    s.width == Auto && s.background == Transparent && s.padding == NoPadding
  }

  /** The full-width column that drops below the header on small screens. */
  predicate OverlayLayout(s: NavStyle)
  {
    s.display == Flex && s.direction == Column && s.position == Absolute &&
    s.anchor == BelowHeader && s.width == FullWidth && s.background == Themed && s.padding == Padded
  }

  /** checkWidth: the navbar style and hamburger display for a viewport width. */
  function CheckWidth(viewport: int, nav: NavStyle): (r: (NavStyle, Display))
    ensures viewport > Breakpoint ==> RowLayout(r.0) && r.0.anchor == nav.anchor && r.1 == NoDisplay
    ensures viewport <= Breakpoint ==> r.0 == nav.(display := NoDisplay) && r.1 == Block
  {
    if viewport > Breakpoint then
      (nav.(display := Flex, direction := Row, position := Static, width := Auto,
            background := Transparent, padding := NoPadding), NoDisplay)
    else
      (nav.(display := NoDisplay), Block)
  }

  /** A second resize to the same width changes nothing more. */
  lemma CheckWidthIdempotent(viewport: int, nav: NavStyle)
    ensures CheckWidth(viewport, CheckWidth(viewport, nav).0) == CheckWidth(viewport, nav)
  {
  }

  /** The style depends only on which side of the breakpoint the width falls. */
  lemma CheckWidthBySide(v1: int, v2: int, nav: NavStyle)
    requires (v1 > Breakpoint) == (v2 > Breakpoint)
    ensures CheckWidth(v1, nav) == CheckWidth(v2, nav)
  {
  }

  /** The style a hamburger click that opens the menu on a small screen
      writes: every property of the navbar's inline style is set. */
  const OverlayStyle: NavStyle := NavStyle(Flex, Column, Absolute, BelowHeader, FullWidth, Themed, Padded)

  /** The hamburger button and the navbar, present in the page. */
  class Menu {
    var hamburgerActive: bool
    var navActive: bool
    var nav: NavStyle
    var hamburger: Display

    /** The two "active" classes agree. */
    predicate Synced()
      reads this
    {
      hamburgerActive == navActive
    }

    /** Wiring the menu: the markup's classes are kept and checkWidth runs once. */
    constructor (hamburgerClass: bool, navClass: bool, viewport: int)
      ensures hamburgerActive == hamburgerClass && navActive == navClass
      ensures (nav, hamburger) == CheckWidth(viewport, Untouched)
    {
      hamburgerActive, navActive := hamburgerClass, navClass;
      var layout := CheckWidth(viewport, Untouched);
      nav, hamburger := layout.0, layout.1;
    }

    /** A click on the hamburger: both classes flip; on a small screen the
        navbar then opens as the overlay or closes. */
    method ToggleMenu(viewport: int)
      modifies this
      ensures hamburgerActive == !old(hamburgerActive) && navActive == !old(navActive)
      ensures Synced() <==> old(Synced())
      ensures viewport <= Breakpoint && navActive ==> nav == OverlayStyle && OverlayLayout(nav)
      ensures viewport <= Breakpoint && !navActive ==> nav == old(nav).(display := NoDisplay)
      ensures viewport > Breakpoint ==> nav == old(nav)
      ensures hamburger == old(hamburger)
    {
      hamburgerActive := !hamburgerActive;
      navActive := !navActive;
      if viewport <= Breakpoint {
        if navActive {
          nav := OverlayStyle;
        } else {
          nav := nav.(display := NoDisplay);
        }
      }
    }

    /** A click on a navigation link: both classes are removed; on a small
        screen the navbar is hidden. */
    method CloseMenu(viewport: int)
      modifies this
      ensures !hamburgerActive && !navActive && Synced()
      ensures nav == if viewport <= Breakpoint then old(nav).(display := NoDisplay) else old(nav)
      ensures hamburger == old(hamburger)
    {
      hamburgerActive := false;
      navActive := false;
      if viewport <= Breakpoint {
        nav := nav.(display := NoDisplay);
      }
    }

    /** A window resize runs checkWidth; the classes are untouched. */
    method Resize(viewport: int)
      modifies this
      ensures (nav, hamburger) == CheckWidth(viewport, old(nav))
      ensures hamburgerActive == old(hamburgerActive) && navActive == old(navActive)
    {
      var layout := CheckWidth(viewport, nav);
      nav, hamburger := layout.0, layout.1;
    }
  }

  /** The page's menu from unmarked classes: at 1024px the row layout with no
      hamburger; at 500px a hidden menu with the hamburger shown, which a
      click opens as the overlay and a link click closes again. */
  method NarrowAndWide() returns (wide: NavStyle, wideBurger: Display, narrow: NavStyle, toggled: NavStyle, closed: NavStyle, burger: Display)
    ensures RowLayout(wide) && wideBurger == NoDisplay
    ensures narrow.display == NoDisplay && burger == Block
    ensures OverlayLayout(toggled)
    ensures closed.display == NoDisplay
  {
    var m := new Menu(false, false, 1024);
    wide, wideBurger := m.nav, m.hamburger;
    m.Resize(500);
    narrow, burger := m.nav, m.hamburger;
    m.ToggleMenu(500);
    toggled := m.nav;
    m.CloseMenu(500);
    closed := m.nav;
  }
}
