/**
 * The "present continuous" lesson deck of unit 1: the shell's navigation over
 * a fixed sixteen slides, plus a zoom-instructions popup that a flag in local
 * storage turns off for good.
 */
module ContinuousLesson {
  import opened Wrappers
  import opened SlideDeck

  const TotalSlides := 16
  const NarrowScreen := 768

  /** `localStorage.getItem(key)` is truthy: present and not the empty string. */
  predicate Truthy(stored: Option<string>) {
    stored.Some? && stored.value != ""
  }

  /** Whether the popup opens on mount: only on a screen wider than 768 pixels
      and only while the hide flag is absent. */
  function ZoomShown(screenWidth: int, hideFlag: Option<string>): (b: bool)
    ensures b ==> screenWidth > NarrowScreen
    ensures Truthy(hideFlag) ==> !b
  {
    if screenWidth <= NarrowScreen then false
    else if Truthy(hideFlag) then false
    else true
  }

  class PresentContinuousLesson {
    const deck: PresentationShell
    var showZoomInstructions: bool
    /** The stored `hideZoomInstructions` value. */
    var hideFlag: Option<string>

    constructor(screenWidth: int, stored: Option<string>)
      ensures fresh(deck) && deck.total == TotalSlides && deck.Valid()
      ensures deck.currentSlide == 0 && !deck.showOutline
      ensures showZoomInstructions == ZoomShown(screenWidth, stored)
      ensures hideFlag == stored
    {
      deck := new PresentationShell(TotalSlides);
      showZoomInstructions := ZoomShown(screenWidth, stored);
      hideFlag := stored;
    }

    method DismissZoomInstructions()
      modifies this
      ensures !showZoomInstructions && hideFlag == Some("true")
    {
      showZoomInstructions := false;
      hideFlag := Some("true");
    }
  }

  /** Once dismissed, the popup never opens again, whatever the screen. */
  lemma DismissIsPermanent(screenWidth: int)
    ensures !ZoomShown(screenWidth, Some("true"))
  {
  }

  /** Over sixteen slides, next from slide 15 is slide 0 and previous from
      slide 0 is slide 15. */
  lemma SixteenSlidesWrap()
    ensures Step(15, Next, TotalSlides) == 0
    ensures Step(0, Previous, TotalSlides) == 15
    ensures forall i :: 0 <= i < 15 ==> Step(i, Next, TotalSlides) == i + 1
  {
  }
}
