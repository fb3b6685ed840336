/** The gallery slider (`Carousel`): a circular `activeIndex` over `n`
    images behind one `isAnimating` lock, touch-swipe detection and a
    viewport flag that decides whether the thumbnail strip is shown.

    Each handler and each timer callback is one atomic step. The lock's
    completion callback, scheduled with `setTimeout`, is counted in
    `pendingUnlocks` until it runs. */
module Carousel {
  import opened SlideIndex

  /** A touch gesture is a swipe past this many pixels. */
  const SwipePixels: int := 50
  /** Viewports narrower than this are mobile. */
  const MobileBreakpoint: int := 768

  /** What `handleTouchEnd` makes of the recorded start and end positions. */
  datatype Gesture =
    | NoTouch   // a recorded position is 0: nothing happens, nothing is reset
    | Tap       // both recorded, distance at most 50 px: no slide change
    | Forward   // the finger moved left by more than 50 px: next slide
    | Backward  // the finger moved right by more than 50 px: previous slide

  /** `handleTouchEnd`'s decision. A position of exactly 0 is taken as "not
      recorded"; otherwise a distance `touchStart - touchEnd` above 50 in
      absolute value is a swipe, forward when positive. */
  function GestureOf(touchStart: int, touchEnd: int): (g: Gesture)
    ensures g == NoTouch <==> touchStart == 0 || touchEnd == 0
    ensures g == Forward <==> touchStart != 0 && touchEnd != 0 && touchStart - touchEnd > SwipePixels
    ensures g == Backward <==> touchStart != 0 && touchEnd != 0 && touchEnd - touchStart > SwipePixels
  {
    if touchStart == 0 || touchEnd == 0 then NoTouch
    else
      var distance := touchStart - touchEnd;
      var isSwipe := (if distance < 0 then -distance else distance) > SwipePixels;
      if !isSwipe then Tap
      else if distance > 0 then Forward
      else Backward
  }

  /** Swapping the two positions turns a forward swipe into a backward one
      and leaves taps and missing touches as they are. */
  lemma GestureReversal(touchStart: int, touchEnd: int)
    ensures GestureOf(touchStart, touchEnd) == Forward <==> GestureOf(touchEnd, touchStart) == Backward
    ensures GestureOf(touchStart, touchEnd) == Tap <==> GestureOf(touchEnd, touchStart) == Tap
    ensures GestureOf(touchStart, touchEnd) == NoTouch <==> GestureOf(touchEnd, touchStart) == NoTouch
  {
  }

  /** The classes a slide gets: `opacity-100 z-10` when active, `opacity-0
      z-0` otherwise (opacity in percent). */
  datatype SlideClass = SlideClass(opacity: int, zIndex: int)

  function SlideClassOf(index: nat, activeIndex: nat): (c: SlideClass)
    ensures c.opacity == 100 <==> index == activeIndex
    ensures c.zIndex == 10 <==> index == activeIndex
    ensures c == SlideClass(100, 10) || c == SlideClass(0, 0)
  {
    if index == activeIndex then SlideClass(100, 10) else SlideClass(0, 0)
  }

  /** The slides rendered visible: exactly the one at `activeIndex`. */
  function VisibleSlides(n: nat, activeIndex: nat): (r: set<nat>)
    requires activeIndex < n
    ensures r == {activeIndex}
    ensures forall i :: i in r ==> SlideClassOf(i, activeIndex) == SlideClass(100, 10)
  {
    set i: nat | i < n && SlideClassOf(i, activeIndex).opacity == 100
  }

  class Carousel {
    /** Number of images. */
    const n: nat
    /** The `mobileOptimized` prop. */
    const mobileOptimized: bool

    var activeIndex: nat
    var isAnimating: bool
    var touchStart: int
    var touchEnd: int
    var isMobile: bool
    /** Completion callbacks scheduled and not yet run. */
    var pendingUnlocks: nat

    /** The index is a slide, and the lock is held exactly while its one
        completion callback is pending. */
    ghost predicate Valid()
      reads this
    {
      && 1 <= n
      && activeIndex < n
      && pendingUnlocks == (if isAnimating then 1 else 0)
    }

    constructor (n: nat, mobileOptimized: bool)
      requires n >= 1
      ensures Valid()
      ensures this.n == n && this.mobileOptimized == mobileOptimized
      ensures activeIndex == 0 && !isAnimating && pendingUnlocks == 0
      ensures touchStart == 0 && touchEnd == 0 && !isMobile
    {
      this.n := n;
      this.mobileOptimized := mobileOptimized;
      activeIndex := 0;
      isAnimating := false;
      touchStart := 0;
      touchEnd := 0;
      isMobile := false;
      pendingUnlocks := 0;
    }

    /** `checkMobile`, run on mount and on every resize. */
    method Resize(innerWidth: int)
      requires Valid()
      modifies this`isMobile
      ensures Valid()
      ensures isMobile <==> innerWidth < MobileBreakpoint
      ensures ShowThumbnails() <==> !mobileOptimized || innerWidth >= MobileBreakpoint
    {
      isMobile := innerWidth < MobileBreakpoint;
    }

    /** `goToNext`: dropped while locked; otherwise takes the lock and moves
        to the next slide, the last wrapping to the first. */
    method GoToNext()
      requires Valid()
      modifies this`isAnimating, this`activeIndex, this`pendingUnlocks
      ensures Valid()
      ensures old(isAnimating) ==> unchanged(this)
      ensures !old(isAnimating) ==> isAnimating && activeIndex == Succ(old(activeIndex), n)
    {
      if isAnimating {
        return;
      }
      isAnimating := true;
      activeIndex := Succ(activeIndex, n);
      pendingUnlocks := pendingUnlocks + 1;
    }

    /** `goToPrev`: dropped while locked; otherwise takes the lock and moves
        to the previous slide, the first wrapping to the last. */
    method GoToPrev()
      requires Valid()
      modifies this`isAnimating, this`activeIndex, this`pendingUnlocks
      ensures Valid()
      ensures old(isAnimating) ==> unchanged(this)
      ensures !old(isAnimating) ==> isAnimating && activeIndex == Pred(old(activeIndex), n)
    {
      if isAnimating {
        return;
      }
      isAnimating := true;
      activeIndex := Pred(activeIndex, n);
      pendingUnlocks := pendingUnlocks + 1;
    }

    /** `goToSlide(k)` from a dot or a thumbnail: dropped while locked or
        when `k` is already active; otherwise takes the lock and shows `k`. */
    method GoToSlide(k: nat)
      requires Valid() && k < n
      modifies this`isAnimating, this`activeIndex, this`pendingUnlocks
      ensures Valid()
      ensures old(isAnimating) || k == old(activeIndex) ==> unchanged(this)
      ensures !old(isAnimating) && k != old(activeIndex) ==> isAnimating && activeIndex == k
    {
      if isAnimating || k == activeIndex {
        return;
      }
      isAnimating := true;
      activeIndex := k;
      pendingUnlocks := pendingUnlocks + 1;
    }

    /** The lock's completion callback: the only step that releases it. */
    method AnimationDone()
      requires Valid() && pendingUnlocks > 0
      modifies this`isAnimating, this`pendingUnlocks
      ensures Valid()
      ensures !isAnimating && pendingUnlocks == 0
    {
      isAnimating := false;
      pendingUnlocks := pendingUnlocks - 1;
    }

    /** `handleTouchStart`: records where the finger went down. */
    method TouchStart(x: int)
      requires Valid()
      modifies this`touchStart
      ensures Valid()
      ensures touchStart == x
    {
      touchStart := x;
    }

    /** `handleTouchMove`: records where the finger is now. */
    method TouchMove(x: int)
      requires Valid()
      modifies this`touchEnd
      ensures Valid()
      ensures touchEnd == x
    {
      touchEnd := x;
    }

    /** `handleTouchEnd`: nothing at all when a position is missing (0).
        Otherwise a forward swipe goes to the next slide and a backward one
        to the previous slide, each still subject to the lock, and both
        positions are reset to 0 whether or not it was a swipe. */
    method TouchEnd()
      requires Valid()
      modifies this`touchStart, this`touchEnd, this`isAnimating, this`activeIndex,
               this`pendingUnlocks
      ensures Valid()
      ensures GestureOf(old(touchStart), old(touchEnd)) == NoTouch ==> unchanged(this)
      ensures GestureOf(old(touchStart), old(touchEnd)) != NoTouch ==> touchStart == 0 && touchEnd == 0
      ensures old(isAnimating) ==> isAnimating && activeIndex == old(activeIndex)
      ensures !old(isAnimating) ==>
                match GestureOf(old(touchStart), old(touchEnd))
                case Forward => isAnimating && activeIndex == Succ(old(activeIndex), n)
                case Backward => isAnimating && activeIndex == Pred(old(activeIndex), n)
                case _ => !isAnimating && activeIndex == old(activeIndex)
    {
      var gesture := GestureOf(touchStart, touchEnd);
      if gesture == NoTouch {
        return;
      }
      if gesture == Forward {
        GoToNext();
      } else if gesture == Backward {
        GoToPrev();
      }
      touchStart := 0;
      touchEnd := 0;
    }

    /** `showThumbnails`: always for a gallery that is not mobile-optimized;
        for a mobile-optimized one, only on viewports that are not mobile. */
    function ShowThumbnails(): (show: bool)
      reads this
      ensures !mobileOptimized ==> show
      ensures mobileOptimized ==> (show <==> !isMobile)
    {
      !mobileOptimized || !isMobile
    }
  }

  /** Two "next" clicks inside one lock window move the gallery once. */
  method DoubleNextMovesOnce(c: Carousel)
    requires c.Valid() && !c.isAnimating
    modifies c
    ensures c.Valid() && c.isAnimating
    ensures c.activeIndex == Succ(old(c.activeIndex), c.n)
  {
    c.GoToNext();
    c.GoToNext();
  }

  /** "Next", its completion, then "previous" returns to the starting slide. */
  method NextThenPrevReturns(c: Carousel)
    requires c.Valid() && !c.isAnimating
    modifies c
    ensures c.Valid() && c.isAnimating
    ensures c.activeIndex == old(c.activeIndex)
  {
    ghost var start := c.activeIndex;
    c.GoToNext();
    c.AnimationDone();
    c.GoToPrev();
    PredUndoesSucc(start, c.n);
  }
}
