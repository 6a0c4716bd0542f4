/**
  The fixed navigation bar: it gains a backdrop once the page is scrolled past 10 pixels,
  slides away while the reader scrolls down past 80 pixels, and comes back on any scroll
  that does not go further down. On small screens a button opens a dropdown menu whose
  links close it again.
*/
module Navbar {

  datatype NavItem = NavItem(name: string, href: string)

  /** The links, in the order both the desktop row and the mobile dropdown show them. */
  const NavItems: seq<NavItem> := [
    NavItem("Home", "#hero"),
    NavItem("About", "#about"),
    NavItem("Skills", "#skills"),
    NavItem("Projects", "#projects"),
    NavItem("Contact", "#contact")
  ]

  /** The page sections the links point at, in order and each once. */
  lemma {:induction false} NavTargets()
    ensures |NavItems| == 5
    ensures forall i :: 0 <= i < |NavItems| ==> NavItems[i].href[..1] == "#"
    ensures NavItems[0].href == "#hero" && NavItems[1].href == "#about"
      && NavItems[2].href == "#skills" && NavItems[3].href == "#projects"
      && NavItems[4].href == "#contact"
    ensures forall i, j :: 0 <= i < j < |NavItems| ==> NavItems[i].href != NavItems[j].href
  {
  }

  // ---------------------------------------------------------------------------------------
  // Scrolling

  /** What a scroll event decides: the backdrop, the slide-away, and the offset remembered
      for the next event. */
  datatype ScrollState = ScrollState(isScrolled: bool, isHidden: bool, lastScrollY: int)

  const InitialScroll := ScrollState(false, false, 0)

  /** One scroll event at offset `currentY`. */
  function ScrollStep(s: ScrollState, currentY: int): (r: ScrollState)
    ensures r.isScrolled <==> currentY > 10
    ensures r.isHidden <==> currentY > s.lastScrollY && currentY > 80
    ensures r.lastScrollY == currentY
  {
    ScrollState(currentY > 10, currentY > s.lastScrollY && currentY > 80, currentY)
  }

  /** The state after a run of scroll events. */
  function ScrollAll(s: ScrollState, ys: seq<int>): ScrollState
    decreases |ys|
  {
    if ys == [] then s else ScrollAll(ScrollStep(s, ys[0]), ys[1..])
  }

  /** The bar is never hidden within 80 pixels of the top, and never after a scroll that
      went up or stayed put. */
  lemma {:induction false} ShownNearTopOrScrollingUp(s: ScrollState, currentY: int)
    requires currentY <= 80 || currentY <= s.lastScrollY
    ensures !ScrollStep(s, currentY).isHidden
  {
  }

  /** Scrolling down past 80 pixels always hides the bar. */
  lemma {:induction false} HiddenScrollingDown(s: ScrollState, currentY: int)
    requires currentY > 80 && currentY > s.lastScrollY
    ensures ScrollStep(s, currentY).isHidden
  {
  }

  /** After any non-empty run of events the state depends only on the last two offsets
      (the starting state's offset standing in for the one before the first event). */
  lemma {:induction false} ScrollAllLastTwo(s: ScrollState, ys: seq<int>)
    requires |ys| >= 1
    ensures ScrollAll(s, ys).lastScrollY == ys[|ys| - 1]
    ensures ScrollAll(s, ys).isScrolled <==> ys[|ys| - 1] > 10
    ensures ScrollAll(s, ys).isHidden <==>
      ys[|ys| - 1] > 80
      && ys[|ys| - 1] > (if |ys| == 1 then s.lastScrollY else ys[|ys| - 2])
    decreases |ys|
  {
    if |ys| > 1 {
      ScrollAllLastTwo(ScrollStep(s, ys[0]), ys[1..]);
      assert ys[1..][|ys| - 2] == ys[|ys| - 1];
      if |ys| > 2 {
        assert ys[1..][|ys| - 3] == ys[|ys| - 2];
      }
    }
  }

  // ---------------------------------------------------------------------------------------
  // Mobile menu

  datatype MenuEvent = PressMenuButton | ClickLink

  function MenuStep(open: bool, e: MenuEvent): bool {
    match e
    case PressMenuButton => !open
    case ClickLink => false
  }

  function MenuAll(open: bool, es: seq<MenuEvent>): bool
    decreases |es|
  {
    if es == [] then open else MenuAll(MenuStep(open, es[0]), es[1..])
  }

  function Presses(es: seq<MenuEvent>): nat {
    if es == [] then 0 else (if es[0] == PressMenuButton then 1 else 0) + Presses(es[1..])
  }

  /** Two presses of the menu button restore the menu. */
  lemma {:induction false} PressTwiceRestores(open: bool)
    ensures MenuAll(open, [PressMenuButton, PressMenuButton]) == open
  {
    assert [PressMenuButton, PressMenuButton][1..] == [PressMenuButton];
  }

  /** With no link clicked, the menu is open iff it started open and was pressed an even
      number of times, or started closed and was pressed an odd number of times. */
  lemma {:induction false} MenuParity(open: bool, es: seq<MenuEvent>)
    requires forall i :: 0 <= i < |es| ==> es[i] == PressMenuButton
    ensures MenuAll(open, es) == (if Presses(es) % 2 == 0 then open else !open)
    decreases |es|
  {
    if es != [] {
      MenuParity(!open, es[1..]);
    }
  }

  /** After a link click the menu is closed, whatever came before it. */
  lemma {:induction false} LinkClickCloses(open: bool, before: seq<MenuEvent>, after: seq<MenuEvent>)
    requires forall i :: 0 <= i < |after| ==> after[i] == PressMenuButton
    ensures MenuAll(open, before + [ClickLink] + after)
      == (Presses(after) % 2 == 1)
    decreases |before|
  {
    if before == [] {
      assert before + [ClickLink] + after == [ClickLink] + after;
      assert ([ClickLink] + after)[1..] == after;
      MenuParity(false, after);
    } else {
      assert (before + [ClickLink] + after)[1..] == before[1..] + [ClickLink] + after;
      LinkClickCloses(MenuStep(open, before[0]), before[1..], after);
    }
  }

  // ---------------------------------------------------------------------------------------
  // The component's state

  class NavbarState {
    var isScrolled: bool
    var isHidden: bool
    var isMenuOpen: bool
    var lastScrollY: int

    function Scroll(): ScrollState
      reads this
    {
      ScrollState(isScrolled, isHidden, lastScrollY)
    }

    constructor ()
      ensures Scroll() == InitialScroll && !isMenuOpen
    {
      isScrolled := false;
      isHidden := false;
      isMenuOpen := false;
      lastScrollY := 0;
    }

    /** The window's scroll listener, given the current offset. */
    method HandleScroll(currentY: int)
      modifies this`isScrolled, this`isHidden, this`lastScrollY
      ensures Scroll() == ScrollStep(old(Scroll()), currentY)
    {
      isScrolled := currentY > 10;
      if currentY > lastScrollY && currentY > 80 {
        isHidden := true;
      } else {
        isHidden := false;
      }
      lastScrollY := currentY;
    }

    /** The menu button. */
    method ToggleMenu()
      modifies this`isMenuOpen
      ensures isMenuOpen == MenuStep(old(isMenuOpen), PressMenuButton)
    {
      isMenuOpen := !isMenuOpen;
    }

    /** A link in the mobile dropdown. */
    method CloseMenu()
      modifies this`isMenuOpen
      ensures isMenuOpen == MenuStep(old(isMenuOpen), ClickLink)
    {
      isMenuOpen := false;
    }
  }
}
