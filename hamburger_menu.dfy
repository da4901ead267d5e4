/** The mobile menu of `initHamburgerMenu`: the `active` class of the
    hamburger button, the `active` class of the navigation, and whether
    `document.body` has its scrolling locked (`overflow: hidden`). */
module HamburgerMenu {

  /** Widths above this close the menu on `resize`. */
  const DESKTOP_MIN_WIDTH: int := 768

  /** Whether a `resize` to the given `window.innerWidth` closes the menu. */
  predicate ClosesOnResize(width: int) {
    width > DESKTOP_MIN_WIDTH
  }

  /** 768 keeps the menu as it is and 769 closes it. */
  lemma ResizeBoundary()
    ensures !ClosesOnResize(768) && ClosesOnResize(769)
  {
  }

  class Menu {
    var hamburgerActive: bool
    var navActive: bool
    var scrollLocked: bool

    /** The button and the navigation are open together, and the page is locked
        exactly while the navigation is open. */
    ghost predicate Mirrored()
      reads this
    {
      hamburgerActive == navActive && scrollLocked == navActive
    }

    /** The page as loaded: closed and unlocked. */
    constructor ()
      ensures !hamburgerActive && !navActive && !scrollLocked
      ensures Mirrored()
    {
      hamburgerActive, navActive, scrollLocked := false, false, false;
    }

    /** The hamburger button's click handler: both classes flip, then the lock
        follows the navigation. */
    method Toggle()
      modifies this
      ensures hamburgerActive == !old(hamburgerActive) && navActive == !old(navActive)
      ensures scrollLocked == navActive
      ensures old(Mirrored()) ==> Mirrored()
    {
      hamburgerActive := !hamburgerActive;
      navActive := !navActive;
      if navActive {
        scrollLocked := true;
      } else {
        scrollLocked := false;
      }
    }

    /** A `.nav-link` click handler: everything closes and the page unlocks. */
    method NavLinkClick()
      modifies this
      ensures !hamburgerActive && !navActive && !scrollLocked
      ensures Mirrored()
    {
      hamburgerActive := false;
      navActive := false;
      scrollLocked := false;
    }

    /** The `resize` handler: above the breakpoint everything closes; at or
        below it nothing changes. */
    method Resize(width: int)
      modifies this
      ensures ClosesOnResize(width) ==> !hamburgerActive && !navActive && !scrollLocked
      ensures !ClosesOnResize(width) ==>
                hamburgerActive == old(hamburgerActive) && navActive == old(navActive) &&
                scrollLocked == old(scrollLocked)
      ensures old(Mirrored()) ==> Mirrored()
    {
      if width > DESKTOP_MIN_WIDTH {
        hamburgerActive := false;
        navActive := false;
        scrollLocked := false;
      }
    }
  }
}
