/**
 * Slide navigation shared by the presentation decks: modular next/previous
 * over a fixed slide count, the key and swipe rules, and the generic
 * `PresentationShell` deck.
 */
module SlideDeck {

  /** JavaScript's `a % b` for a positive divisor: it truncates toward zero,
      so a negative `a` gives a remainder that is zero or negative. */
  function JsRem(a: int, b: int): (r: int)
    requires b > 0
    ensures -b < r < b
    ensures a >= 0 ==> r >= 0
    ensures a <= 0 ==> r <= 0
    ensures 0 <= a < b ==> r == a
    ensures b <= a < 2 * b ==> r == a - b
  {
    if b <= a < 2 * b then ModOnce(a, b); a % b
    else if a >= 0 then a % b else -((-a) % b)
  }

  /** Between one and two divisors, the remainder is one subtraction. */
  lemma ModOnce(x: int, b: int)
    requires b > 0 && b <= x < 2 * b
    ensures x % b == x - b
  {
    var q, r := x / b, x % b;
    assert x == b * q + r;
    MulSign(b, q);
  }

  lemma MulSign(b: int, q: int)
    requires b > 0
    ensures q <= 0 ==> b * q <= 0
    ensures q >= 2 ==> b * q >= 2 * b
  {
    if q >= 2 {
      assert b * q == b * (q - 2) + 2 * b;
      MulNonNegative(b, q - 2);
    } else if q <= 0 {
      assert b * q == -(b * (-q));
      MulNonNegative(b, -q);
    }
  }

  lemma MulNonNegative(b: int, k: int)
    requires b > 0 && k >= 0
    ensures b * k >= 0
  {
  }

  /** The slide `showSlide(n)` moves to: `(n + total) % total`.  From one
      step before the first slide to one step past the last it wraps
      around; further out a negative `n` gives a negative index, as in
      JavaScript. */
  function Wrap(n: int, total: int): (r: int)
    requires total > 0
    ensures -total <= n < 0 ==> r == n + total
    ensures 0 <= n < total ==> r == n
    ensures n == total ==> r == 0
    ensures n < -total ==> r <= 0
  {
    JsRem(n + total, total)
  }

  /** Next from the last slide is the first; previous from the first is the last. */
  lemma WrapEnds(total: int)
    requires total > 0
    ensures Wrap(total - 1 + 1, total) == 0
    ensures Wrap(0 - 1, total) == total - 1
  {
  }

  /** Going next and then previous, or previous and then next, returns to
      the same slide. */
  lemma NextPreviousInverse(i: int, total: int)
    requires 0 <= i < total
    ensures Wrap(Wrap(i + 1, total) - 1, total) == i
    ensures Wrap(Wrap(i - 1, total) + 1, total) == i
  {
  }

  /** What one key press or swipe asks the deck to do. */
  datatype Nav = Next | Previous | CloseOutline | Stay

  /** Right/Down go next, Left/Up go previous, Escape closes an open outline. */
  function KeyNav(key: string, outlineOpen: bool): (r: Nav)
    ensures r == Next <==> key == "ArrowRight" || key == "ArrowDown"
    ensures r == Previous <==> key == "ArrowLeft" || key == "ArrowUp"
    ensures r == CloseOutline <==> key == "Escape" && outlineOpen
  {
    if key == "ArrowRight" || key == "ArrowDown" then Next
    else if key == "ArrowLeft" || key == "ArrowUp" then Previous
    else if key == "Escape" && outlineOpen then CloseOutline
    else Stay
  }

  const SwipeThreshold := 50

  /** A swipe to the left (start − end beyond the threshold) goes next, one to
      the right goes previous, and a short one does nothing. */
  function SwipeNav(startX: int, endX: int): (r: Nav)
    ensures r == Next <==> startX - endX > SwipeThreshold
    ensures r == Previous <==> startX - endX < -SwipeThreshold
    ensures r != CloseOutline
  {
    var diff := startX - endX;
    if diff > SwipeThreshold then Next
    else if diff < -SwipeThreshold then Previous
    else Stay
  }

  /** The slide a navigation request leads to from `current`. */
  function Step(current: int, nav: Nav, total: int): (r: int)
    requires total > 0
    ensures 0 <= current < total ==> 0 <= r < total
    ensures nav == Next && 0 <= current < total ==>
      r == if current == total - 1 then 0 else current + 1
    ensures nav == Previous && 0 <= current < total ==>
      r == if current == 0 then total - 1 else current - 1
    ensures nav == CloseOutline || nav == Stay ==> r == current
  {
    match nav
    case Next => Wrap(current + 1, total)
    case Previous => Wrap(current - 1, total)
    case _ => current
  }

  /** The `isActive` flag of every slide. */
  function ActiveFlags(total: nat, current: int): seq<bool> {
    seq(total, i => i == current)
  }

  /** Exactly one slide is active when the current index is in range. */
  lemma ExactlyOneActive(total: nat, current: int)
    requires 0 <= current < total
    ensures ActiveFlags(total, current)[current]
    ensures forall i :: 0 <= i < total && ActiveFlags(total, current)[i] ==> i == current
  {
  }

  /** The generic deck: `slides.length` slides, an outline and touch tracking. */
  class PresentationShell {
    const total: int
    var currentSlide: int
    var showOutline: bool
    var touchStartX: int
    var touchEndX: int

    predicate Valid()
      reads this
    {
      total > 0 && 0 <= currentSlide < total
    }

    constructor(slideCount: int)
      requires slideCount > 0
      ensures total == slideCount
      ensures currentSlide == 0 && !showOutline && touchStartX == 0 && touchEndX == 0
      ensures Valid()
    {
      total := slideCount;
      currentSlide := 0;
      showOutline := false;
      touchStartX := 0;
      touchEndX := 0;
    }

    method ShowSlide(n: int)
      requires total > 0
      modifies this
      ensures currentSlide == Wrap(n, total)
      ensures showOutline == old(showOutline)
      ensures touchStartX == old(touchStartX) && touchEndX == old(touchEndX)
    {
      currentSlide := Wrap(n, total);
    }

    method ToggleOutline()
      modifies this
      ensures showOutline == !old(showOutline)
      ensures currentSlide == old(currentSlide)
      ensures touchStartX == old(touchStartX) && touchEndX == old(touchEndX)
    {
      showOutline := !showOutline;
    }

    /** Sets the index as given, without a range check, and closes the outline. */
    method GoToSlide(n: int)
      modifies this
      ensures currentSlide == n && !showOutline
      ensures touchStartX == old(touchStartX) && touchEndX == old(touchEndX)
      ensures total > 0 && 0 <= n < total ==> Valid()
    {
      currentSlide := n;
      showOutline := false;
    }

    method KeyDown(key: string)
      requires Valid()
      modifies this
      ensures Valid()
      ensures currentSlide == Step(old(currentSlide), KeyNav(key, old(showOutline)), total)
      ensures showOutline == (old(showOutline) && KeyNav(key, old(showOutline)) != CloseOutline)
      ensures touchStartX == old(touchStartX) && touchEndX == old(touchEndX)
    {
      var nav := KeyNav(key, showOutline);
      if nav == Next {
        ShowSlide(currentSlide + 1);
      } else if nav == Previous {
        ShowSlide(currentSlide - 1);
      } else if nav == CloseOutline {
        showOutline := false;
      }
    }

    method TouchStart(x: int)
      modifies this
      ensures touchStartX == x
      ensures touchEndX == old(touchEndX)
      ensures currentSlide == old(currentSlide) && showOutline == old(showOutline)
    {
      touchStartX := x;
    }

    /** The end position is stored, but the decision reads the `touchEndX`
        of the previous touch: the state update is not visible yet. */
    method TouchEnd(x: int)
      requires Valid()
      modifies this
      ensures Valid()
      ensures touchEndX == x && touchStartX == old(touchStartX)
      ensures currentSlide == Step(old(currentSlide), SwipeNav(old(touchStartX), old(touchEndX)), total)
      ensures showOutline == old(showOutline)
    {
      var diff := SwipeNav(touchStartX, touchEndX);
      touchEndX := x;
      if diff == Next {
        ShowSlide(currentSlide + 1);
      } else if diff == Previous {
        ShowSlide(currentSlide - 1);
      }
    }

    /** `isActive` of slide `i`. */
    function IsActive(i: int): (b: bool)
      reads this
      ensures Valid() && 0 <= i < total ==> b == ActiveFlags(total, currentSlide)[i]
    {
      currentSlide == i
    }
  }
}
