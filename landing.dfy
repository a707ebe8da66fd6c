/**
 * The landing page's image slider and mobile menu: the slide index moves
 * forward, backward or to a chosen dot, always modulo the number of
 * images, and the menu opens and closes with a toggle and closes on a wide
 * resize.
 */
module Landing {
  /** The number of images in the slider. */
  const IMAGE_COUNT: nat := 5

  /** The width from which the menu is always closed. */
  const DESKTOP_WIDTH: int := 768

  /** `(i + 1) % count`; the operands are never negative, so the remainder agrees with JavaScript's. */
  function NextSlide(i: nat, count: nat): (r: nat)
    requires count > 0
    ensures r < count
    ensures i < count ==> r == if i == count - 1 then 0 else i + 1
  {
    (i + 1) % count
  }

  /** `(i - 1 + count) % count`. */
  function PreviousSlide(i: nat, count: nat): (r: nat)
    requires count > 0 && i < count
    ensures r < count
    ensures r == if i == 0 then count - 1 else i - 1
  {
    (i - 1 + count) % count
  }

  /** The next and previous buttons undo each other. */
  lemma NextThenPrevious(i: nat, count: nat)
    requires i < count
    ensures PreviousSlide(NextSlide(i, count), count) == i
    ensures NextSlide(PreviousSlide(i, count), count) == i
  {
  }

  /** The index after `k` auto-advances. */
  function Advance(i: nat, count: nat, k: nat): (r: nat)
    requires count > 0 && i < count
    ensures r < count
  {
    if k == 0 then i else NextSlide(Advance(i, count, k - 1), count)
  }

  /** Division with remainder has one answer. */
  lemma ModUnique(x: nat, n: nat, q: int, r: int)
    requires n > 0 && 0 <= r < n && x == q * n + r
    ensures x % n == r
  {
    var d := q - x / n;
    assert d * n == x % n - r;
  }

  lemma ModSucc(a: nat, count: nat)
    requires count > 0
    ensures NextSlide(a % count, count) == (a + 1) % count
  {
    var j := a % count;
    var q := a / count;
    if j + 1 < count {
      ModUnique(a + 1, count, q, j + 1);
    } else {
      ModUnique(a + 1, count, q + 1, 0);
    }
  }

  lemma {:induction false} AdvanceIsModular(i: nat, count: nat, k: nat)
    requires count > 0 && i < count
    ensures Advance(i, count, k) == (i + k) % count
  {
    if k == 0 {
      ModUnique(i, count, 0, i);
    } else {
      AdvanceIsModular(i, count, k - 1);
      ModSucc(i + k - 1, count);
    }
  }

  /** A full round of auto-advances shows the starting image again. */
  lemma FullCycle(i: nat, count: nat)
    requires count > 0 && i < count
    ensures Advance(i, count, count) == i
  {
    AdvanceIsModular(i, count, count);
    ModUnique(i + count, count, 1, i);
  }

  class LandingPage {
    const slideCount: nat
    var slideIndex: nat
    var navOpen: bool
    /** Whether the auto-advance interval is running. */
    var autoAdvance: bool

    ghost predicate Valid()
      reads this
    {
      slideCount > 0 && slideIndex < slideCount && (autoAdvance <==> slideCount > 1)
    }

    /** Mounting: first slide, menu closed, auto-advance only when there is more than one image. */
    constructor (count: nat)
      requires count > 0
      ensures Valid() && slideCount == count && slideIndex == 0 && !navOpen
      ensures autoAdvance <==> count > 1
    {
      slideCount := count;
      slideIndex := 0;
      navOpen := false;
      autoAdvance := count > 1;
    }

    /** One tick of the auto-advance interval. */
    method Tick()
      requires Valid() && autoAdvance
      modifies this`slideIndex
      ensures Valid() && slideIndex == NextSlide(old(slideIndex), slideCount)
    {
      slideIndex := (slideIndex + 1) % slideCount;
    }

    method Next()
      requires Valid()
      modifies this`slideIndex
      ensures Valid() && slideIndex == NextSlide(old(slideIndex), slideCount)
    {
      slideIndex := (slideIndex + 1) % slideCount;
    }

    method Previous()
      requires Valid()
      modifies this`slideIndex
      ensures Valid() && slideIndex == PreviousSlide(old(slideIndex), slideCount)
    {
      slideIndex := (slideIndex - 1 + slideCount) % slideCount;
    }

    /** Clicking dot `i`; there is one dot per image. */
    method GoTo(i: nat)
      requires Valid() && i < slideCount
      modifies this`slideIndex
      ensures Valid() && slideIndex == i
    {
      slideIndex := i;
    }

    method ToggleNav()
      modifies this`navOpen
      ensures navOpen == !old(navOpen)
    {
      navOpen := !navOpen;
    }

    /** The backdrop, shown only while the menu is open, closes it. */
    method CloseNav()
      requires navOpen
      modifies this`navOpen
      ensures !navOpen
    {
      navOpen := false;
    }

    /** A resize closes the menu from the desktop width on and leaves it alone below. */
    method Resize(width: int)
      modifies this`navOpen
      ensures width >= DESKTOP_WIDTH ==> !navOpen
      ensures width < DESKTOP_WIDTH ==> navOpen == old(navOpen)
    {
      if width >= DESKTOP_WIDTH {
        navOpen := false;
      }
    }
  }

  /** With the page's five images, next then previous, or a round of five ticks, comes back. */
  method SliderRound()
  {
    var page := new LandingPage(IMAGE_COUNT);
    page.Next();
    page.Previous();
    assert page.slideIndex == 0;
    page.Previous();
    assert page.slideIndex == 4;
  }
}
