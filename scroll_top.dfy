/** The scroll-to-top button: it carries the `show` class exactly while the page is
    scrolled further than 100 pixels. The smooth scroll its click starts is a browser
    side effect and is not modelled. */
module ScrollTop {

  /** The offset, in CSS pixels, the page must scroll past before the button shows. */
  const ShowAfter: real := 100.0

  /** Whether `onScrollBtn` leaves the `show` class on the button at vertical offset `scrollY`. */
  function ShownAt(scrollY: real): (shown: bool)
    ensures shown ==> scrollY > 100.0
    ensures !shown ==> scrollY <= 100.0
  {
    scrollY > ShowAfter
  }

  /** Exact threshold: hidden at every offset up to and including 100, shown above it. */
  lemma ShownExactlyAbove(scrollY: real)
    ensures ShownAt(scrollY) <==> scrollY > 100.0
    ensures !ShownAt(100.0)
  {
  }

  /** Scrolling further down never hides a shown button. */
  lemma ShownIsUpwardClosed(lower: real, higher: real)
    requires lower <= higher && ShownAt(lower)
    ensures ShownAt(higher)
  {
  }

  /** The button element, reduced to whether it carries the `show` class. */
  class ScrollTopButton {
    var show: bool

    /** The guard of installation: without `#scrollTopBtn` nothing is attached. */
    static method Install(present: bool, scrollY: real) returns (b: ScrollTopButton?)
      ensures (b != null) == present
      ensures b != null ==> fresh(b) && b.show == ShownAt(scrollY)
    {
      if present {
        b := new ScrollTopButton(scrollY);
      } else {
        b := null;
      }
    }

    /** Installation runs the handler once for the offset the page loads at. */
    constructor (scrollY: real)
      ensures show == ShownAt(scrollY)
    {
      show := ShownAt(scrollY);
    }

    /** The passive `scroll` listener: the class reflects the new offset only. */
    method OnScroll(scrollY: real)
      modifies this
      ensures show == ShownAt(scrollY)
    {
      if ShownAt(scrollY) {
        show := true;
      } else {
        show := false;
      }
    }
  }
}
