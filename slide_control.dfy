/**
 * The scroll-hijacking slide controller of the coffee showcase, as values.
 *
 * `State` holds everything the controller's handlers read or write: the
 * four refs (active index, animation lock, pinned flag, touch start), the
 * scroll trigger's region once it exists, the native scroll offset, the
 * rendered index, the companion store, a log of the transitions handed to
 * the animation layer and a log of the calls made on the smooth-scroll
 * engine. Each handler is a function from the old state to the new one;
 * the class in module Showcase runs the same steps in place and is proved
 * equal to these functions. Timers are a logical clock: taking the lock
 * records when its release timer fires, and `Elapse` lets time pass.
 */
module SlideControl {
  import opened Wrappers
  import opened ScrollStore

  /** Lock time after an accepted wheel step, in milliseconds. */
  const WheelCooldownMs: nat := 700
  /** Lock time after an accepted swipe. */
  const TouchCooldownMs: nat := 600
  /** Lock time after a navigation-dot click. */
  const DotCooldownMs: nat := 700
  /** Minimum travel, in pixels, between touchstart and touchend that counts as a swipe. */
  const SwipeThreshold: real := 40.0
  /** The number of entries in the slide data. */
  const CoffeeCount: SlideCount := 7

  /** A slide count; the scroll mapping divides by `total - 1`. */
  type SlideCount = n: int | n >= 2 witness 2

  /** The pinned span of the page, in pixels of native scroll offset. */
  datatype Region = Region(start: real, end: real)

  /** A call on the smooth-scroll engine. */
  datatype EngineCall = Stop | Start

  /** What the controller hands to the (decorative) animation layer. */
  datatype Transition = Transition(from: int, to: int, direction: int)

  datatype State = State(
    total: SlideCount,
    activeIndex: int,            // the active-index ref
    shownIndex: int,             // the rendered index that highlights a dot
    locked: bool,                // the is-animating ref
    releaseAt: int,              // when the pending release timer fires
    now: int,                    // the logical clock, in milliseconds
    pinned: bool,                // the is-pinned ref
    touchStartY: real,           // the touch-start ref
    trigger: Option<Region>,     // the scroll trigger, once created
    scrollY: real,               // the native scroll offset
    listening: bool,             // window listeners and trigger callbacks attached
    store: StoreState,           // the companion store
    transitions: seq<Transition>,
    engine: seq<EngineCall>)

  /** The refs' values when the component is created. */
  function Created(total: SlideCount, scrollY: real, store: StoreState): (s: State)
    ensures Valid(s) && !s.pinned && !s.locked && s.trigger == None
  {
    State(total, 0, 0, false, 0, 0, false, 0.0, None, scrollY, false, store, [], [])
  }

  /**
   * The invariant every handler keeps: the index is a slide, a held lock
   * has its release pending no later than one wheel cooldown ahead, and
   * the trigger exists once callbacks can have fired.
   */
  predicate Valid(s: State) {
    && 0 <= s.activeIndex < s.total
    && (s.locked ==> s.now < s.releaseAt <= s.now + WheelCooldownMs)
    && (s.listening || s.pinned ==> s.trigger.Some?)
  }

  /** The rendered index and the store both mirror the active index. */
  predicate Synced(s: State) {
    s.shownIndex == s.activeIndex && s.store.currentIndex == s.activeIndex
  }

  function Min(a: int, b: int): int { if a <= b then a else b }
  function Max(a: int, b: int): int { if a >= b then a else b }
  function Abs(x: real): real { if x < 0.0 then -x else x }

  /** `Math.max(0, Math.min(total - 1, index))`. */
  function Clamp(index: int, total: SlideCount): (r: int)
    ensures 0 <= r < total
    ensures 0 <= index < total ==> r == index
    ensures index < 0 ==> r == 0
    ensures index >= total ==> r == total - 1
  {
    Max(0, Min(total - 1, index))
  }

  /** The scroll offset of slide `k`: `start + k / (total - 1) * (end - start)`. */
  function SlideOffset(rg: Region, k: int, total: SlideCount): real {
    rg.start + (k as real / (total - 1) as real) * (rg.end - rg.start)
  }

  /** +1 when coming from the initial -1 or moving to a higher slide, else -1. */
  function DirectionOf(prev: int, index: int): int {
    if prev < 0 then 1 else if index > prev then 1 else -1
  }

  /** The neighbour a gesture moves to, never past either end. */
  function StepTarget(index: int, total: SlideCount, down: bool): int {
    if down then Min(index + 1, total - 1) else Max(index - 1, 0)
  }

  /** The index, rendered index and store update of `animateToIndex` (its tweens are left out). */
  function AnimateToIndex(s: State, index: int, force: bool): State {
    if index < 0 || index >= s.total then s
    else if index == s.activeIndex && !force then s
    else
      s.(activeIndex := index, shownIndex := index,
         store := WithCurrentIndex(s.store, index),
         transitions := s.transitions + [Transition(s.activeIndex, index, DirectionOf(s.activeIndex, index))])
  }

  /** `goToSlide`: nothing before the trigger exists; else animate to the clamped slide and jump the scroll offset to it. */
  function GoToSlide(s: State, index: int): State {
    match s.trigger
    case None => s
    case Some(rg) =>
      var clamped := Clamp(index, s.total);
      AnimateToIndex(s, clamped, false).(scrollY := SlideOffset(rg, clamped, s.total))
  }

  /** Take the animation lock and schedule its release `ms` from now. */
  function Lock(s: State, ms: nat): State {
    s.(locked := true, releaseAt := s.now + ms)
  }

  /** Let `ms` milliseconds pass; a pending release whose time has come clears the lock. */
  function Elapse(s: State, ms: nat): State {
    var t := s.now + ms;
    if s.locked && s.releaseAt <= t then s.(now := t, locked := false) else s.(now := t)
  }

  /** Whether the wheel handler takes the event (and calls `preventDefault`). */
  predicate WheelIntercepted(s: State, deltaY: real) {
    && s.listening && s.pinned && !s.locked
    && !(deltaY < 0.0 && s.activeIndex == 0)
    && !(deltaY > 0.0 && s.activeIndex == s.total - 1)
  }

  /** `handleWheel`: one step down for a positive delta, one step up otherwise. */
  function OnWheel(s: State, deltaY: real): State {
    if WheelIntercepted(s, deltaY) then
      GoToSlide(Lock(s, WheelCooldownMs), StepTarget(s.activeIndex, s.total, deltaY > 0.0))
    else s
  }

  /** `handleTouchStart`: remember where the finger went down, while pinned. */
  function OnTouchStart(s: State, y: real): State {
    if s.listening && s.pinned then s.(touchStartY := y) else s
  }

  /** `handleTouchMove` changes nothing; this says whether it calls `preventDefault`. */
  predicate TouchMovePrevents(s: State, y: real) {
    var deltaY := s.touchStartY - y;
    && s.listening && s.pinned
    && !(deltaY < 0.0 && s.activeIndex == 0)
    && !(deltaY > 0.0 && s.activeIndex == s.total - 1)
  }

  /** `handleTouchEnd`: a swipe of at least the threshold moves one step, as the wheel does. */
  function OnTouchEnd(s: State, y: real): State {
    var deltaY := s.touchStartY - y;
    if !s.listening || !s.pinned || s.locked then s
    else if Abs(deltaY) < SwipeThreshold then s
    else if deltaY < 0.0 && s.activeIndex == 0 then s
    else if deltaY > 0.0 && s.activeIndex == s.total - 1 then s
    else GoToSlide(Lock(s, TouchCooldownMs), StepTarget(s.activeIndex, s.total, deltaY > 0.0))
  }

  /** `handleDotClick`: dropped while locked; otherwise lock and go to the slide. */
  function OnDotClick(s: State, index: int): State {
    if s.locked then s else GoToSlide(Lock(s, DotCooldownMs), index)
  }

  /** `onEnter` and `onEnterBack`: pin and stop the engine, if there is one. */
  function OnPinEnter(s: State, engineExists: bool): State {
    if !s.listening then s
    else s.(pinned := true, engine := s.engine + if engineExists then [Stop] else [])
  }

  /** `onLeave` and `onLeaveBack`: unpin and start the engine, if there is one. */
  function OnPinLeave(s: State, engineExists: bool): State {
    if !s.listening then s
    else s.(pinned := false, engine := s.engine + if engineExists then [Start] else [])
  }

  /**
   * The effect's set-up once images are loaded and the section is mounted:
   * index -1, forced animation to slide 0, then the trigger over
   * `total` viewport heights from `top`, and the listeners attached.
   */
  function Setup(s: State, imagesLoaded: bool, sectionMounted: bool, top: real, viewportHeight: real): State {
    if !imagesLoaded || !sectionMounted then s
    else
      AnimateToIndex(s.(activeIndex := -1), 0, true)
        .(trigger := Some(PinnedRegion(top, viewportHeight, s.total)), listening := true)
  }

  /** The trigger's span: from the section's top, `total` viewport heights long. */
  function PinnedRegion(top: real, viewportHeight: real, total: SlideCount): (rg: Region)
    ensures rg.start == top
    ensures viewportHeight > 0.0 ==> rg.end > rg.start
  {
    Region(top, top + total as real * viewportHeight)
  }

  /**
   * The effect's clean-up: listeners detached and the engine started again.
   * It exists only once set-up has run past its early return, and runs
   * once, so with no listeners attached there is nothing to undo.
   */
  function Cleanup(s: State, engineExists: bool): State {
    if !s.listening then s
    else s.(listening := false, engine := s.engine + if engineExists then [Start] else [])
  }

  /** Everything that can happen to the controller. */
  datatype Event =
    | Wheel(deltaY: real)
    | TouchStart(startY: real)
    | TouchMove(moveY: real)
    | TouchEnd(endY: real)
    | Dot(dot: int)
    | Enter(enterEngine: bool)
    | Leave(leaveEngine: bool)
    | Tick(ms: nat)
    | Mount(imagesLoaded: bool, sectionMounted: bool, top: real, viewportHeight: real)
    | Unmount(unmountEngine: bool)

  function Step(s: State, e: Event): State {
    match e
    case Wheel(d) => OnWheel(s, d)
    case TouchStart(y) => OnTouchStart(s, y)
    case TouchMove(_) => s
    case TouchEnd(y) => OnTouchEnd(s, y)
    case Dot(i) => OnDotClick(s, i)
    case Enter(x) => OnPinEnter(s, x)
    case Leave(x) => OnPinLeave(s, x)
    case Tick(ms) => Elapse(s, ms)
    case Mount(loaded, mounted, top, vh) => Setup(s, loaded, mounted, top, vh)
    case Unmount(x) => Cleanup(s, x)
  }

  function Run(s: State, es: seq<Event>): State
    decreases |es|
  {
    if es == [] then s else Run(Step(s, es[0]), es[1..])
  }
}
