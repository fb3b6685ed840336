# Riad front end: the two image carousels

The riad's front end has two sliders that run a state machine of their own
(the room carousel's drag state only scrolls the page and is left out):

- the hero slider `ImageCarousel` (src/components/ui/ImageCarousel.tsx), which
  the landing page renders. It follows pointer and touch drags, advances by
  itself every 20 s unless reduced motion is requested, and locks input while a
  transition runs;
- the gallery `Carousel` (src/components/home/Carousel.tsx), with arrows, dots,
  thumbnails and touch swipes behind a single `isAnimating` lock. The landing
  page does not render it; it is a component ready for use elsewhere.

This project models both as state machines and proves their rules. Each event
handler and each timer callback is one atomic step; events stand in for time.

- `slide_index.dfy`, module `SlideIndex`: the circular "next" and "previous"
  updaters both sliders use, their agreement with the modular index arithmetic
  of the render, the fact that each undoes the other, and that `k` "next" steps
  from slide `i` land on `(i + k) mod n`.
- `image_carousel.dfy`, module `ImageCarousel`: the drag percentage and its
  clamp, the 40 px / 15 % release rule, the discrete part of `getSlideStyle`
  (opacity and z-index), and a class `ImageCarousel` with the component's
  fields and one method per handler and callback. The completion callbacks
  scheduled with `setTimeout` are a first-in first-out queue `timers` (they all
  share the same duration). The class invariant says that each lock that is set
  has a pending callback that will clear it, so no lock can stay stuck.
- `carousel.dfy`, module `Carousel`: the swipe decision, the single visible
  slide, `showThumbnails`, and a class `Carousel` whose invariant says that the
  lock is held exactly while its one completion callback is pending. So the
  index changes at most once per lock window, and only the callback releases
  the lock.

Both sliders need at least one image (`n >= 1`). With none, the `% images.length`
of ImageCarousel.tsx lines 138-139 has no meaning. The page passes two.

`goToSlide` of the hero slider (ImageCarousel.tsx lines 111-120) does not
check `isDragging`, so it could start a transition during a drag; nothing in
the markup calls it.

## Model

| member | source | states |
|---|---|---|
| `SlideIndex.Succ` | src/components/ui/ImageCarousel.tsx:97-99 | "next" (also src/components/home/Carousel.tsx:58) stays in [0, n) and equals `(i + 1) mod n`: the last slide wraps to 0 |
| `SlideIndex.Pred` | src/components/ui/ImageCarousel.tsx:105-107 | "previous" (also src/components/home/Carousel.tsx:69) stays in [0, n) and equals `(i - 1 + n) mod n`: slide 0 wraps to n - 1 |
| `SlideIndex.PredUndoesSucc` | src/components/ui/ImageCarousel.tsx:95-109 | previous after next returns to the starting slide |
| `SlideIndex.SuccUndoesPred` | src/components/ui/ImageCarousel.tsx:95-109 | next after previous returns to the starting slide |
| `SlideIndex.Advanced` | src/components/ui/ImageCarousel.tsx:97-99 | `k` consecutive "next" steps from a slide stay on a slide |
| `SlideIndex.AdvancedIsModular` | src/components/ui/ImageCarousel.tsx:97-99 | `k` consecutive "next" steps from slide `i` reach `(i + k) mod n`, so `k` steps from slide 0 reach `k mod n` |
| `ImageCarousel.NextIndex` | src/components/ui/ImageCarousel.tsx:139 | the render's `nextIndex` is the index "next" would move to |
| `ImageCarousel.PrevIndex` | src/components/ui/ImageCarousel.tsx:138 | the render's `prevIndex` is the index "previous" would move to |
| `ImageCarousel.EffectiveWidth` | src/components/ui/ImageCarousel.tsx:62 | the width divided by is the container's width when it is mounted and non-zero, and 1 otherwise |
| `ImageCarousel.DragPercent` | src/components/ui/ImageCarousel.tsx:58-63 | the drag percentage lies in [-100, 100] and has the sign of the offset; while the offset is shorter than the container width it equals offset / width * 100, and from a full width on it is 100 (forward) or -100 (backward); a missing or zero width counts as 1 |
| `ImageCarousel.DragPercentIsOdd` | src/components/ui/ImageCarousel.tsx:58-63 | the same distance dragged the other way gives the opposite percentage |
| `ImageCarousel.Commits` | src/components/ui/ImageCarousel.tsx:75 | a release changes slide exactly when the offset is outside [-40, 40] px or the percentage outside [-15, 15]; a reset drag (both 0) never does |
| `ImageCarousel.CommitsIff` | src/components/ui/ImageCarousel.tsx:75 | for a percentage measured on the same offset, the release changes slide exactly when the offset is above 40 px or above 3/20 of the container width |
| `ImageCarousel.SlideStyle` | src/components/ui/ImageCarousel.tsx:142-195 | exactly the current slide gets z-index 10, with opacity 1; a slide that is neither current nor a neighbour gets opacity 0 and z-index 0; at rest only the current slide shows; when not transitioning, a forward drag reveals only the next slide and a backward drag only the previous one; during a transition both neighbours are revealed at z-index 5 |
| `ImageCarousel.ReleaseLandsOnRevealedSlide` | src/components/ui/ImageCarousel.tsx:75-81 | the slide a drag reveals behind the current one is the slide its release moves to |
| `ImageCarousel.ImageCarousel.constructor` | src/components/ui/ImageCarousel.tsx:29-38 | the slider starts on slide 0, not dragging, both locks clear, offsets 0, no callback pending |
| `ImageCarousel.ImageCarousel.DragStart` | src/components/ui/ImageCarousel.tsx:44-52 | ignored while transitioning; otherwise starts a drag at the pointer position and leaves the previous offset and percentage in place |
| `ImageCarousel.ImageCarousel.DragStartFresh` | src/components/ui/ImageCarousel.tsx:44-52 | the corrected drag start: it also zeroes offset and percentage, so a release that follows without a move never changes slide |
| `ImageCarousel.ImageCarousel.DragMove` | src/components/ui/ImageCarousel.tsx:54-68 | only while dragging and not transitioning: offset becomes `startX - x` and the percentage becomes `DragPercent` of it; otherwise nothing changes |
| `ImageCarousel.ImageCarousel.DragEnd` | src/components/ui/ImageCarousel.tsx:70-93 | nothing unless dragging, and afterwards not dragging; past the threshold it sets both locks and moves exactly one slide (next for a positive offset, previous otherwise), keeping offset and percentage and scheduling the two completions; below it the slide stays and offset and percentage become 0 |
| `ImageCarousel.ImageCarousel.GoToNext` | src/components/ui/ImageCarousel.tsx:95-101 | sets `isAnimating`, moves to `Succ` of the slide, schedules the callback that clears `isAnimating`; no lock is checked |
| `ImageCarousel.ImageCarousel.GoToPrev` | src/components/ui/ImageCarousel.tsx:103-109 | sets `isAnimating`, moves to `Pred` of the slide, schedules the callback that clears `isAnimating`; no lock is checked |
| `ImageCarousel.ImageCarousel.GoToSlide` | src/components/ui/ImageCarousel.tsx:111-120 | a jump to the slide already shown changes nothing; otherwise the slide becomes `k`, both locks are set, and a callback that clears both is scheduled |
| `ImageCarousel.ImageCarousel.AutoplayTick` | src/components/ui/ImageCarousel.tsx:123-135 | with reduced motion or during a drag a tick changes nothing; otherwise it sets both locks and advances exactly one slide |
| `ImageCarousel.ImageCarousel.FireTimer` | src/components/ui/ImageCarousel.tsx:84-87 | the oldest pending callback runs: the drag completion clears only `isTransitioning` and `dragPercent`, and the others clear their own locks (lines 100, 108, 116-119, 130); the invariant still holds |
| `ImageCarousel.ImageCarousel.StyleOf` | src/components/ui/ImageCarousel.tsx:246 | the style the render gives slide `index` puts exactly the current slide in front |
| `ImageCarousel.WholeDrag` | src/components/ui/ImageCarousel.tsx:70-93 | a press, one move and a release past 40 px or 15 % of the width move one slide in the drag direction; a shorter drag leaves the slide unchanged |
| `ImageCarousel.TapAfterSwipeAdvancesAgain` | src/components/ui/ImageCarousel.tsx:75-77 | as written, a tap after a committed swipe moves the slider one more slide |
| `ImageCarousel.TapAfterSwipeStays` | src/components/ui/ImageCarousel.tsx:44-52 | with the corrected drag start the same tap leaves the slide where the swipe put it |
| `Carousel.GestureOf` | src/components/home/Carousel.tsx:96-108 | a recorded position of 0 means no touch; otherwise a swipe happens exactly when the distance is above 50 px, forward when `touchStart - touchEnd` is positive |
| `Carousel.GestureReversal` | src/components/home/Carousel.tsx:99-108 | swapping start and end turns a forward swipe into a backward one and keeps taps and missing touches |
| `Carousel.SlideClassOf` | src/components/home/Carousel.tsx:143-145 | a slide gets `opacity-100 z-10` exactly when it is the active one, and `opacity-0 z-0` otherwise |
| `Carousel.VisibleSlides` | src/components/home/Carousel.tsx:140-145 | exactly one slide is rendered active, the one at `activeIndex` |
| `Carousel.Carousel.constructor` | src/components/home/Carousel.tsx:28-33 | the gallery starts on slide 0, unlocked, with no touch recorded and no callback pending |
| `Carousel.Carousel.Resize` | src/components/home/Carousel.tsx:40-42 | `isMobile` holds exactly when the viewport is narrower than 768 px, and the thumbnails then show exactly when the gallery is not mobile-optimized or the viewport is at least 768 px wide |
| `Carousel.Carousel.GoToNext` | src/components/home/Carousel.tsx:54-63 | while locked nothing changes; otherwise the lock is taken and the slide moves to `Succ`, last to 0 |
| `Carousel.Carousel.GoToPrev` | src/components/home/Carousel.tsx:65-74 | while locked nothing changes; otherwise the lock is taken and the slide moves to `Pred`, 0 to n - 1 |
| `Carousel.Carousel.GoToSlide` | src/components/home/Carousel.tsx:76-85 | nothing while locked or when `k` is already active; otherwise `activeIndex` becomes `k` and the lock is taken |
| `Carousel.Carousel.AnimationDone` | src/components/home/Carousel.tsx:60-62 | the completion callback is the only step that releases the lock, and afterwards no callback is pending |
| `Carousel.Carousel.TouchStart` | src/components/home/Carousel.tsx:88-90 | records the finger's starting position |
| `Carousel.Carousel.TouchMove` | src/components/home/Carousel.tsx:92-94 | records the finger's latest position |
| `Carousel.Carousel.TouchEnd` | src/components/home/Carousel.tsx:96-112 | with a position of 0 nothing changes, not even a reset; otherwise both positions become 0, and a forward or backward swipe moves one slide only when unlocked |
| `Carousel.Carousel.ShowThumbnails` | src/components/home/Carousel.tsx:115 | the render's thumbnail flag: always shown for a gallery that is not mobile-optimized, otherwise shown exactly when not mobile; `Resize` ties it to the viewport width |
| `Carousel.DoubleNextMovesOnce` | src/components/home/Carousel.tsx:54-63 | two "next" clicks within one lock window move the gallery by one slide |
| `Carousel.NextThenPrevReturns` | src/components/home/Carousel.tsx:54-74 | "next", its completion, then "previous" return to the starting slide |

## Findings

| source | as written | input that shows it | evidently intended | confidence | as-written member | corrected member |
|---|---|---|---|---|---|---|
| src/components/ui/ImageCarousel.tsx:44-52 | drag start keeps `dragOffset`, and the commit path and its completion never zero it, so the next release re-uses the old offset | 3 slides, 1000 px wide: press at 300, move to 100, release (slide 1); both completions run; then a tap at 500 (press and release, no move) moves to slide 2 | a release changes slide only for the distance of the gesture it ends | not executed | `ImageCarousel.TapAfterSwipeAdvancesAgain` | `ImageCarousel.ImageCarousel.DragStartFresh` |

The booking form sits inside the hero slider, so its taps and clicks reach the
slider's handlers too. After a committed swipe, a press and release without a
move moves the slider again, provided the swipe's transition has completed (a
press during it is ignored, line 45) and no drag below the threshold came in
between (its release zeroes the offset, lines 90-91). `ImageCarousel.TapAfterSwipeStays`
runs the same sequence with the corrected drag start and stays on slide 1.

## Left out

- Time: the 20 s autoplay interval, the 400/700 ms and 300/500 ms animation durations, the restart of the interval whenever `isDragging` changes, and `clearInterval` on teardown. Each tick and each completion callback is an event. The callbacks fire in the order they were scheduled, because they share one duration.
- React's batching of state updates and stale closures. Each handler reads the state as it is and writes its updates at once.
- Pointer plumbing: `clientX` is a JavaScript number and can be fractional on touch screens; the model takes each x position as an integer. `preventDefault` is left out.
- `ImageCarousel.DragPercent`: JavaScript computes the percentage in floating point; the model uses exact reals.
- `ImageCarousel.SlideStyle`: the transform strings, transition strings and easing curves are left out. The model keeps opacity and z-index, and opacity only as the number the code computes, before CSS clamps it.
- The hero slider's text overlay fading during a transition (line 268), image priority and quality, the blur overlay, and all markup and class strings.
- `ImageCarousel.ImageCarousel.GoToSlide`, `Carousel.Carousel.GoToSlide`: they require `k < n`. The gallery's dots and thumbnails only pass indices of existing images. The hero slider's `goToSlide` has no caller in the markup.
- `Carousel.GestureOf`: a touch that really starts or ends at x = 0 counts as "no touch", as in the code. The model keeps that behaviour.
- The other components (header, footer, hero section, services, room cards, room carousel, booking form) are static layout, browser scrolling, or date handling by third-party libraries, and are not part of this model.
