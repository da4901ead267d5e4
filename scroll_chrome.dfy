/** The scroll-driven page chrome: the header's `scrolled` class
    (`initHeader`), the back-to-top button's `visible` class and its click
    (`initBackToTop`), and the in-page anchor links (`initSmoothScroll`). */
module ScrollChrome {
  import opened Sequences
  import opened JsText

  /** `window.scrollY` past which the header is marked `scrolled`. */
  const HEADER_THRESHOLD: real := 100.0
  /** `window.scrollY` past which the back-to-top button is `visible`. */
  const BACK_TO_TOP_THRESHOLD: real := 500.0
  /** Gap, in CSS pixels, kept between the header's bottom edge and the target section. */
  const ANCHOR_GAP: int := 20

  /** The header's `scrolled` class for a given scroll position. */
  predicate HeaderScrolled(scrollY: real) {
    scrollY > HEADER_THRESHOLD
  }

  /** The back-to-top button's `visible` class for a given scroll position. */
  predicate BackToTopVisible(scrollY: real) {
    scrollY > BACK_TO_TOP_THRESHOLD
  }

  /** The header threshold is strict (100 is not scrolled, 101 and 100.5 are)
      and scrolling further down never clears the class. */
  lemma HeaderThreshold(y: real, z: real)
    requires y <= z
    ensures !HeaderScrolled(100.0) && HeaderScrolled(100.5) && HeaderScrolled(101.0)
    ensures HeaderScrolled(y) ==> HeaderScrolled(z)
  {
  }

  /** The button's threshold is strict (500 hides it, 501 shows it), scrolling
      further down never hides it, and it only shows once the header is marked. */
  lemma BackToTopThreshold(y: real, z: real)
    requires y <= z
    ensures !BackToTopVisible(500.0) && BackToTopVisible(501.0)
    ensures BackToTopVisible(y) ==> BackToTopVisible(z)
    ensures BackToTopVisible(y) ==> HeaderScrolled(y)
  {
  }

  /** The classes the two `scroll` listeners maintain. */
  class Chrome {
    var headerScrolled: bool
    var backToTopVisible: bool

    /** The page as loaded, at the top. */
    constructor ()
      ensures !headerScrolled && !backToTopVisible
    {
      headerScrolled, backToTopVisible := false, false;
    }

    /** `initHeader`'s `scroll` listener at position `scrollY`. */
    method HeaderOnScroll(scrollY: real)
      modifies this`headerScrolled
      ensures headerScrolled == HeaderScrolled(scrollY)
    {
      if scrollY > HEADER_THRESHOLD {
        headerScrolled := true;
      } else {
        headerScrolled := false;
      }
    }

    /** `initBackToTop`'s `scroll` listener at position `scrollY`. */
    method BackToTopOnScroll(scrollY: real)
      modifies this`backToTopVisible
      ensures backToTopVisible == BackToTopVisible(scrollY)
    {
      if scrollY > BACK_TO_TOP_THRESHOLD {
        backToTopVisible := true;
      } else {
        backToTopVisible := false;
      }
    }

    /** One `scroll` event runs both listeners, so the button never shows
        under an unmarked header. */
    method OnScroll(scrollY: real)
      modifies this
      ensures headerScrolled == HeaderScrolled(scrollY)
      ensures backToTopVisible == BackToTopVisible(scrollY)
      ensures backToTopVisible ==> headerScrolled
    {
      HeaderOnScroll(scrollY);
      BackToTopOnScroll(scrollY);
    }
  }

  /** What `document.querySelector(href)` gives for a link's `href`: the
      matched element's `offsetTop`, no element, or a `SyntaxError` because
      the text is not a valid selector. */
  datatype Lookup = Found(offsetTop: int) | NotFound | InvalidSelector

  /** What a click on an in-page link does: whether the browser's own
      navigation is prevented, and the `top` of the smooth scroll requested. */
  datatype ClickOutcome = ClickOutcome(defaultPrevented: bool, scrollTop: Option<int>)

  /** The click handler of a link whose `href` starts with '#'. The bare '#'
      scrolls to the top, the same request the back-to-top button's click
      handler makes. Otherwise a matched target is scrolled to so that the
      requested `top` lies `headerHeight + ANCHOR_GAP` above the element's
      `offsetTop`. With no match, or a `SyntaxError` that ends the handler
      early, the click is left to the browser. */
  function AnchorClick(href: JsString, lookup: Lookup, headerHeight: int): (r: ClickOutcome)
    requires href != [] && href[0] == HASH
  {
    if href == [HASH] then ClickOutcome(true, Some(0))
    else match lookup
      case Found(offsetTop) => ClickOutcome(true, Some(offsetTop - headerHeight - ANCHOR_GAP))
      case NotFound => ClickOutcome(false, None)
      case InvalidSelector => ClickOutcome(false, None)
  }

  /** A click is intercepted exactly when it requests a scroll; the bare '#'
      always goes to the top; any other link is intercepted exactly when its
      target exists, and then the element's `offsetTop` lies
      `headerHeight + ANCHOR_GAP` below the requested `top`. */
  lemma AnchorClickSpec(href: JsString, lookup: Lookup, headerHeight: int)
    requires href != [] && href[0] == HASH
    ensures AnchorClick(href, lookup, headerHeight).defaultPrevented <==>
              AnchorClick(href, lookup, headerHeight).scrollTop.Some?
    ensures href == [HASH] ==> AnchorClick(href, lookup, headerHeight).scrollTop == Some(0)
    ensures href != [HASH] ==>
              (AnchorClick(href, lookup, headerHeight).defaultPrevented <==> lookup.Found?)
    ensures href != [HASH] && lookup.Found? ==>
              var top := AnchorClick(href, lookup, headerHeight).scrollTop.value;
              lookup.offsetTop - top == headerHeight + ANCHOR_GAP
  {
  }
}
