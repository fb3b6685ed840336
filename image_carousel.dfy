/** The hero slider of the landing page (`ImageCarousel`): a circular slide
    index over `n` images, a pointer-drag tracker, an autoplay tick and two
    animation locks, `isAnimating` and `isTransitioning`. Only
    `isTransitioning` gates input; `isAnimating` is set and cleared but never
    read by a handler.

    Each event handler and each timer callback is one atomic step. The
    completion callbacks that the source schedules with `setTimeout` are kept
    in `timers`, in the order they were scheduled: they all share one
    animation duration, so they fire first-in first-out. */
module ImageCarousel {
  import opened SlideIndex

  datatype Option<T> = None | Some(value: T)

  /** A drag release changes slide past this many pixels ... */
  const CommitPixels: int := 40
  /** ... or past this percentage of the container width. */
  const CommitPercent: real := 15.0

  function Abs(x: int): nat { if x < 0 then -x else x }

  function AbsReal(x: real): real { if x < 0.0 then -x else x }

  function MinReal(a: real, b: real): real { if a <= b then a else b }

  function MaxReal(a: real, b: real): real { if a >= b then a else b }

  /** The divisor `carouselRef.current?.offsetWidth || 1`: a container that
      is not mounted (`None`) or has zero width counts as 1 pixel wide. */
  function EffectiveWidth(width: Option<nat>): (w: nat)
    ensures w >= 1
    ensures width.Some? && width.value > 0 ==> w == width.value
    ensures width.None? || width.value == 0 ==> w == 1
  {
    if width.Some? && width.value > 0 then width.value else 1
  }

  /** The drag distance as a percentage of the container width, clamped to
      [-100, 100]: exactly `offset / width * 100` while the offset is shorter
      than the width, and 100 or -100 from a full width on. */
  function DragPercent(offset: int, width: Option<nat>): (p: real)
    ensures -100.0 <= p <= 100.0
    ensures p > 0.0 <==> offset > 0
    ensures p < 0.0 <==> offset < 0
    ensures -(EffectiveWidth(width) as int) < offset < EffectiveWidth(width)
            ==> p * EffectiveWidth(width) as real == (offset * 100) as real
    ensures offset >= EffectiveWidth(width) ==> p == 100.0
    ensures offset <= -(EffectiveWidth(width) as int) ==> p == -100.0
  {
    var w := EffectiveWidth(width);
    var raw := offset as real / w as real * 100.0;
    RawPercentScale(offset, w);
    MinReal(100.0, MaxReal(-100.0, raw))
  }

  /** The unclamped percentage `offset / w * 100` times `w` is `offset * 100`;
      it reaches 100 exactly from `offset >= w` and -100 exactly from
      `offset <= -w`, and it has the sign of the offset. */
  lemma RawPercentScale(offset: int, w: nat)
    requires w >= 1
    ensures offset as real / w as real * 100.0 * w as real == (offset * 100) as real
    ensures offset as real / w as real * 100.0 >= 100.0 <==> offset >= w
    ensures offset as real / w as real * 100.0 <= -100.0 <==> offset <= -(w as int)
    ensures offset as real / w as real * 100.0 > 0.0 <==> offset > 0
    ensures offset as real / w as real * 100.0 < 0.0 <==> offset < 0
  {
    var x, wr := offset as real, w as real;
    var q := x / wr;
    QuotientTimesDivisor(x, wr);
    assert q * 100.0 * wr == 100.0 * (q * wr);
    QuotientCompare(x, wr, 1.0);
    QuotientCompare(x, wr, -1.0);
    QuotientCompare(x, wr, 0.0);
    assert x >= 1.0 * wr <==> offset >= w;
    assert x <= -1.0 * wr <==> offset <= -(w as int);
  }

  /** Comparing a quotient with a constant is comparing the dividend with
      the constant times the (positive) divisor. */
  lemma QuotientCompare(x: real, w: real, c: real)
    requires w > 0.0
    ensures x / w >= c <==> x >= c * w
    ensures x / w <= c <==> x <= c * w
    ensures x / w > c <==> x > c * w
    ensures x / w < c <==> x < c * w
  {
    QuotientTimesDivisor(x, w);
    ScaledComparison(c, w, x / w);
    ScaledComparison(x / w, w, c);
  }

  /** Dividing and multiplying back by a non-zero divisor is the identity. */
  lemma QuotientTimesDivisor(x: real, w: real)
    requires w > 0.0
    ensures x / w * w == x
  {
  }

  /** The quotient of `-x` is the negated quotient of `x`. */
  lemma NegatedQuotient(q: real, q': real, x: real, w: real)
    requires w > 0.0 && q * w == x && q' * w == -x
    ensures q' == -q
  {
    assert (-q) * w == -(q * w);
    CancelFactor(q', -q, w);
  }

  /** A positive factor can be cancelled from both sides of an equation. */
  lemma CancelFactor(a: real, b: real, w: real)
    requires w > 0.0 && a * w == b * w
    ensures a == b
  {
    ScaledComparison(a, w, b);
    ScaledComparison(b, w, a);
  }

  /** Dragging the other way by the same distance gives the opposite
      percentage. */
  lemma DragPercentIsOdd(offset: int, width: Option<nat>)
    ensures DragPercent(-offset, width) == -DragPercent(offset, width)
  {
    var w := EffectiveWidth(width) as real;
    var x := offset as real;
    assert (-offset) as real == -x;
    QuotientTimesDivisor(x, w);
    QuotientTimesDivisor(-x, w);
    NegatedQuotient(x / w, (-x) / w, x, w);
    assert (-(x / w)) * 100.0 == -(x / w * 100.0);
  }

  /** The release rule: a drag changes slide when it went more than 40 px or
      more than 15 % of the width, in either direction. */
  predicate Commits(offset: int, percent: real): (c: bool)
    ensures c <==> offset < -40 || 40 < offset || percent < -15.0 || 15.0 < percent
    ensures offset == 0 && percent == 0.0 ==> !c
  {
    Abs(offset) > CommitPixels || AbsReal(percent) > CommitPercent
  }

  /** For a drag whose percentage was measured on the same offset, the
      release rule is a condition on whole pixels: more than 40 px, or more
      than 3/20 of the container width. */
  lemma CommitsIff(offset: int, width: Option<nat>)
    ensures Commits(offset, DragPercent(offset, width))
        <==> Abs(offset) > 40 || 20 * Abs(offset) > 3 * EffectiveWidth(width)
  {
    var w := EffectiveWidth(width);
    var p := DragPercent(offset, width);
    if offset < 0 {
      DragPercentIsOdd(-offset, width);
      PercentAboveThreshold(-offset, width);
    } else {
      PercentAboveThreshold(offset, width);
    }
  }

  /** For a non-negative offset, the percentage exceeds 15 exactly when
      `20 * offset > 3 * width`. */
  lemma PercentAboveThreshold(offset: nat, width: Option<nat>)
    ensures DragPercent(offset, width) > 15.0 <==> 20 * offset > 3 * EffectiveWidth(width)
  {
    var w := EffectiveWidth(width);
    assert DragPercent(offset, width) > 15.0 <==> offset as real / w as real * 100.0 > 15.0;
    RawPercentAboveThreshold(offset, w);
  }

  /** The unclamped percentage `offset / w * 100` exceeds 15 exactly when
      `20 * offset > 3 * w`. */
  lemma RawPercentAboveThreshold(offset: nat, w: nat)
    requires w >= 1
    ensures offset as real / w as real * 100.0 > 15.0 <==> 20 * offset > 3 * w
  {
    var x, wr := offset as real, w as real;
    QuotientCompare(x, wr, 0.15);
    assert x > 0.15 * wr <==> 20 * offset > 3 * w;
  }

  /** Multiplying both sides by a positive factor keeps a strict order. */
  lemma ScaledComparison(x: real, w: real, c: real)
    requires w > 0.0
    ensures x > c <==> x * w > c * w
  {
    assert x * w - c * w == (x - c) * w;
  }

  /** `nextIndex` of the render: `(currentIndex + 1) % n`. It is the index
      that "next" moves to. */
  function NextIndex(current: nat, n: nat): (r: nat)
    requires current < n
    ensures r == Succ(current, n)
  {
    (current + 1) % n
  }

  /** `prevIndex` of the render: `(currentIndex - 1 + n) % n`. It is the
      index that "previous" moves to. */
  function PrevIndex(current: nat, n: nat): (r: nat)
    requires current < n
    ensures r == Pred(current, n)
  {
    (current - 1 + n) % n
  }

  /** The discrete part of a slide's style: its opacity and stacking order. */
  datatype Style = Style(opacity: real, zIndex: int)

  /** `getSlideStyle` without the transform and transition strings. The
      current slide is in front and opaque; the next slide is shown behind it
      while dragging forward or transitioning, the previous one while
      dragging backward or transitioning; every other slide is transparent
      and at the back. A neighbour fades in with the drag distance (fully
      visible at 30 %), and with reduced motion it is opaque throughout a
      transition. */
  function SlideStyle(index: nat, current: nat, n: nat, dragPercent: real,
                      isTransitioning: bool, reducedMotion: bool): (s: Style)
    requires index < n && current < n
    ensures s.zIndex == 10 <==> index == current
    ensures index == current ==> s.opacity == 1.0
    ensures s.zIndex == 0 || s.zIndex == 5 || s.zIndex == 10
    ensures s.zIndex == 0 ==> s.opacity == 0.0
    ensures index != current && index != NextIndex(current, n) && index != PrevIndex(current, n)
            ==> s == Style(0.0, 0)
    ensures !isTransitioning && dragPercent == 0.0 && index != current ==> s == Style(0.0, 0)
    ensures !isTransitioning && dragPercent > 0.0 && index != current
            ==> (s.zIndex == 5 <==> index == NextIndex(current, n))
    ensures !isTransitioning && dragPercent < 0.0 && index != current
            ==> (s.zIndex == 5 <==> index == PrevIndex(current, n))
    ensures isTransitioning && index != current
            ==> (s.zIndex == 5 <==> index == NextIndex(current, n) || index == PrevIndex(current, n))
  {
    if index == current then
      Style(1.0, 10)
    else if index == NextIndex(current, n) && (dragPercent > 0.0 || isTransitioning) then
      Style(if reducedMotion && isTransitioning then 1.0 else MinReal(1.0, dragPercent / 30.0), 5)
    else if index == PrevIndex(current, n) && (dragPercent < 0.0 || isTransitioning) then
      Style(if reducedMotion && isTransitioning then 1.0 else MinReal(1.0, AbsReal(dragPercent) / 30.0), 5)
    else
      Style(0.0, 0)
  }

  /** The slide a drag reveals behind the current one is the slide its
      release moves to: a forward drag (positive offset) shows the next slide
      and commits to "next", a backward drag shows and commits to "previous". */
  lemma ReleaseLandsOnRevealedSlide(offset: int, width: Option<nat>, current: nat, n: nat,
                                    reducedMotion: bool)
    requires current < n && offset != 0
    ensures var target := if offset > 0 then Succ(current, n) else Pred(current, n);
            target != current
            ==> SlideStyle(target, current, n, DragPercent(offset, width), false, reducedMotion).zIndex == 5
  {
  }

  /** The completion callbacks the slider schedules. */
  datatype Timer =
    | EndAnimation           // goToNext / goToPrev: isAnimating := false
    | EndDragTransition      // drag release: isTransitioning := false, dragPercent := 0
    | EndSlideJump           // goToSlide: isAnimating := false, isTransitioning := false
    | EndAutoplayTransition  // autoplay tick: isTransitioning := false

  /** Some pending callback will clear `isAnimating`. */
  predicate AnimationEndPending(timers: seq<Timer>)
  {
    EndAnimation in timers || EndSlideJump in timers
  }

  /** Some pending callback will clear `isTransitioning`. */
  predicate TransitionEndPending(timers: seq<Timer>)
  {
    EndDragTransition in timers || EndSlideJump in timers || EndAutoplayTransition in timers
  }

  predicate ClearsAnimating(t: Timer)
  {
    t == EndAnimation || t == EndSlideJump
  }

  predicate ClearsTransitioning(t: Timer)
  {
    t != EndAnimation
  }

  class ImageCarousel {
    /** Number of images (the page supplies two). */
    const n: nat
    /** The `reducedMotion` prop. */
    const reducedMotion: bool

    var currentIndex: nat
    var startX: int
    var isDragging: bool
    var dragOffset: int
    var dragPercent: real
    var isAnimating: bool
    var isTransitioning: bool
    /** Completion callbacks scheduled and not yet run, oldest first. */
    var timers: seq<Timer>

    /** The index is a slide, the percentage is within its clamp, and each
        lock that is set has a pending callback that will clear it. */
    ghost predicate Valid()
      reads this
    {
      && 1 <= n
      && currentIndex < n
      && -100.0 <= dragPercent <= 100.0
      && (isAnimating ==> AnimationEndPending(timers))
      && (isTransitioning ==> TransitionEndPending(timers))
    }

    constructor (n: nat, reducedMotion: bool)
      requires n >= 1
      ensures Valid()
      ensures this.n == n && this.reducedMotion == reducedMotion
      ensures currentIndex == 0 && startX == 0 && !isDragging
      ensures dragOffset == 0 && dragPercent == 0.0
      ensures !isAnimating && !isTransitioning && timers == []
    {
      this.n := n;
      this.reducedMotion := reducedMotion;
      currentIndex := 0;
      startX := 0;
      isDragging := false;
      dragOffset := 0;
      dragPercent := 0.0;
      isAnimating := false;
      isTransitioning := false;
      timers := [];
    }

    /** `handleDragStart`: ignored during a transition; otherwise starts a
        drag at pointer position `x`. The offset and percentage of the
        previous drag are left as they were. */
    method DragStart(x: int)
      requires Valid()
      modifies this`isDragging, this`startX
      ensures Valid()
      ensures old(isTransitioning) ==> isDragging == old(isDragging) && startX == old(startX)
      ensures !old(isTransitioning) ==> isDragging && startX == x
    {
      if isTransitioning {
        return;
      }
      isDragging := true;
      startX := x;
    }

    /** `handleDragStart` as evidently intended: a new gesture also starts
        from a zero offset and percentage, so a release with no move in
        between never changes slide. */
    method DragStartFresh(x: int)
      requires Valid()
      modifies this`isDragging, this`startX, this`dragOffset, this`dragPercent
      ensures Valid()
      ensures old(isTransitioning) ==> unchanged(this)
      ensures !old(isTransitioning) ==> isDragging && startX == x
      ensures !old(isTransitioning) ==> dragOffset == 0 && dragPercent == 0.0
      ensures !old(isTransitioning) ==> !Commits(dragOffset, dragPercent)
    {
      if isTransitioning {
        return;
      }
      isDragging := true;
      startX := x;
      dragOffset := 0;
      dragPercent := 0.0;
    }

    /** `handleDragMove`: only while dragging and not transitioning, records
        the offset `startX - x` and its clamped percentage of the container
        width (`None` when the container is not mounted). */
    method DragMove(x: int, width: Option<nat>)
      requires Valid()
      modifies this`dragOffset, this`dragPercent
      ensures Valid()
      ensures !old(isDragging) || old(isTransitioning) ==> unchanged(this)
      ensures old(isDragging) && !old(isTransitioning) ==>
                dragOffset == startX - x && dragPercent == DragPercent(startX - x, width)
    {
      if !isDragging || isTransitioning {
        return;
      }
      var difference := startX - x;
      dragOffset := difference;
      dragPercent := DragPercent(difference, width);
    }

    /** `handleDragEnd`: only while dragging; ends the drag. A drag past the
        threshold moves exactly one slide (forward for a positive offset) and
        starts a transition, keeping offset and percentage until its
        completion; a shorter drag keeps the slide and zeroes both. */
    method DragEnd()
      requires Valid()
      modifies this`isDragging, this`dragOffset, this`dragPercent, this`isAnimating,
               this`isTransitioning, this`currentIndex, this`timers
      ensures Valid()
      ensures !old(isDragging) ==> unchanged(this)
      ensures old(isDragging) ==> !isDragging
      ensures old(isDragging) && Commits(old(dragOffset), old(dragPercent)) ==>
                && isTransitioning && isAnimating
                && currentIndex == (if old(dragOffset) > 0 then Succ(old(currentIndex), n)
                                    else Pred(old(currentIndex), n))
                && dragOffset == old(dragOffset) && dragPercent == old(dragPercent)
                && timers == old(timers) + [EndAnimation, EndDragTransition]
      ensures old(isDragging) && !Commits(old(dragOffset), old(dragPercent)) ==>
                && currentIndex == old(currentIndex)
                && dragOffset == 0 && dragPercent == 0.0
                && isTransitioning == old(isTransitioning) && isAnimating == old(isAnimating)
                && timers == old(timers)
    {
      if !isDragging {
        return;
      }
      isDragging := false;
      if Commits(dragOffset, dragPercent) {
        // goToNext/goToPrev schedule their callback before the release does.
        if dragOffset > 0 {
          GoToNext();
        } else {
          GoToPrev();
        }
        isTransitioning := true;
        timers := timers + [EndDragTransition];
      } else {
        dragPercent := 0.0;
        dragOffset := 0;
      }
    }

    /** `goToNext`: sets `isAnimating` and moves to the next slide, the last
        wrapping to the first. No lock is consulted. */
    method GoToNext()
      requires Valid()
      modifies this`isAnimating, this`currentIndex, this`timers
      ensures Valid()
      ensures isAnimating && currentIndex == Succ(old(currentIndex), n)
      ensures timers == old(timers) + [EndAnimation]
    {
      isAnimating := true;
      currentIndex := Succ(currentIndex, n);
      timers := timers + [EndAnimation];
    }

    /** `goToPrev`: sets `isAnimating` and moves to the previous slide, the
        first wrapping to the last. No lock is consulted. */
    method GoToPrev()
      requires Valid()
      modifies this`isAnimating, this`currentIndex, this`timers
      ensures Valid()
      ensures isAnimating && currentIndex == Pred(old(currentIndex), n)
      ensures timers == old(timers) + [EndAnimation]
    {
      isAnimating := true;
      currentIndex := Pred(currentIndex, n);
      timers := timers + [EndAnimation];
    }

    /** `goToSlide(k)`: nothing when `k` is already shown; otherwise jumps to
        `k` and sets both locks. */
    method GoToSlide(k: nat)
      requires Valid() && k < n
      modifies this`isAnimating, this`isTransitioning, this`currentIndex, this`timers
      ensures Valid()
      ensures k == old(currentIndex) ==> unchanged(this)
      ensures k != old(currentIndex) ==>
                && currentIndex == k && isAnimating && isTransitioning
                && timers == old(timers) + [EndSlideJump]
    {
      if k == currentIndex {
        return;
      }
      isAnimating := true;
      isTransitioning := true;
      currentIndex := k;
      timers := timers + [EndSlideJump];
    }

    /** One tick of the 20 s autoplay interval. With reduced motion the
        interval is never installed, so a tick does nothing; while a drag is
        in progress it does nothing either; otherwise it starts a transition
        and moves to the next slide. */
    method AutoplayTick()
      requires Valid()
      modifies this`isAnimating, this`isTransitioning, this`currentIndex, this`timers
      ensures Valid()
      ensures reducedMotion || old(isDragging) ==> unchanged(this)
      ensures !reducedMotion && !old(isDragging) ==>
                && isTransitioning && isAnimating
                && currentIndex == Succ(old(currentIndex), n)
                && timers == old(timers) + [EndAnimation, EndAutoplayTransition]
    {
      if reducedMotion || isDragging {
        return;
      }
      GoToNext();
      isTransitioning := true;
      timers := timers + [EndAutoplayTransition];
    }

    /** The oldest pending completion callback runs. */
    method FireTimer()
      requires Valid() && timers != []
      modifies this`isAnimating, this`isTransitioning, this`dragPercent, this`timers
      ensures Valid()
      ensures timers == old(timers)[1..]
      ensures isAnimating == (old(isAnimating) && !ClearsAnimating(old(timers)[0]))
      ensures isTransitioning == (old(isTransitioning) && !ClearsTransitioning(old(timers)[0]))
      ensures dragPercent == if old(timers)[0] == EndDragTransition then 0.0 else old(dragPercent)
    {
      var t := timers[0];
      ghost var pending := timers;
      timers := timers[1..];
      assert forall u :: u in pending && u != t ==> u in timers;
      match t
      case EndAnimation =>
        isAnimating := false;
      case EndDragTransition =>
        isTransitioning := false;
        dragPercent := 0.0;
      case EndSlideJump =>
        isAnimating := false;
        isTransitioning := false;
      case EndAutoplayTransition =>
        isTransitioning := false;
    }

    /** The opacity and stacking order the render gives slide `index`. */
    function StyleOf(index: nat): (s: Style)
      reads this
      requires Valid() && index < n
      ensures s.zIndex == 10 <==> index == currentIndex
    {
      SlideStyle(index, currentIndex, n, dragPercent, isTransitioning, reducedMotion)
    }
  }

  /** A whole drag (press at `from`, one move to `to`, release) on a slider
      that is not transitioning: past 40 px or 15 % of the width it moves one
      slide in the drag direction, otherwise the slide stays. */
  method WholeDrag(c: ImageCarousel, from: int, to: int, width: Option<nat>)
    requires c.Valid() && !c.isTransitioning
    modifies c
    ensures c.Valid() && !c.isDragging
    ensures var d := from - to;
            c.currentIndex == (if Abs(d) > 40 || 20 * Abs(d) > 3 * EffectiveWidth(width) then
                                 (if d > 0 then Succ(old(c.currentIndex), c.n) else Pred(old(c.currentIndex), c.n))
                               else old(c.currentIndex))
  {
    c.DragStart(from);
    c.DragMove(to, width);
    CommitsIff(from - to, width);
    c.DragEnd();
  }

  /** As written: after a committed swipe, a tap (press and release without
      a move) moves the slider once more, because the swipe's offset is
      still recorded. Three slides, a 200 px forward swipe on a 1000 px
      container, both completions, then a tap at 500: the slider is on the
      third slide instead of the second. */
  method TapAfterSwipeAdvancesAgain() returns (index: nat)
    ensures index == 2
  {
    var c := new ImageCarousel(3, false);
    c.DragStart(300);
    c.DragMove(100, Some(1000));
    c.DragEnd();
    assert c.currentIndex == 1;
    c.FireTimer();
    c.FireTimer();
    c.DragStart(500);
    c.DragEnd();
    index := c.currentIndex;
  }

  /** Corrected: with `DragStartFresh` the same sequence leaves the slider on
      the slide the swipe reached. */
  method TapAfterSwipeStays() returns (index: nat)
    ensures index == 1
  {
    var c := new ImageCarousel(3, false);
    c.DragStartFresh(300);
    c.DragMove(100, Some(1000));
    c.DragEnd();
    assert c.currentIndex == 1;
    c.FireTimer();
    c.FireTimer();
    c.DragStartFresh(500);
    c.DragEnd();
    index := c.currentIndex;
  }
}
