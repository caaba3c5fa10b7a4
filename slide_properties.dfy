/**
 * What the slide controller promises, proved about the transition
 * functions of module SlideControl.
 */
module SlideProperties {
  import opened Wrappers
  import opened ScrollStore
  import opened SlideControl

  // ---------------------------------------------------------------- animateToIndex

  /** An index outside the slides, or the current one without `force`, changes nothing. */
  lemma AnimateToIndexNoop(s: State, index: int, force: bool)
    requires index < 0 || index >= s.total || (index == s.activeIndex && !force)
    ensures AnimateToIndex(s, index, force) == s
  {
  }

  /**
   * Otherwise the index, the rendered index and the store's current index
   * all become `index`, and one transition is handed to the animation
   * layer, forward (+1) exactly when coming from the initial -1 or moving
   * to a higher slide.
   */
  lemma AnimateToIndexMoves(s: State, index: int, force: bool)
    requires 0 <= index < s.total && (index != s.activeIndex || force)
    ensures var r := AnimateToIndex(s, index, force);
      && r.activeIndex == index && r.shownIndex == index
      && r.store == WithCurrentIndex(s.store, index)
      && |r.transitions| == |s.transitions| + 1
      && r.transitions[..|s.transitions|] == s.transitions
      && r.transitions[|s.transitions|].from == s.activeIndex
      && r.transitions[|s.transitions|].to == index
      && (r.transitions[|s.transitions|].direction == 1 <==> s.activeIndex < 0 || index > s.activeIndex)
      && (r.transitions[|s.transitions|].direction == -1 <==> !(s.activeIndex < 0 || index > s.activeIndex))
      && r.(activeIndex := s.activeIndex, shownIndex := s.shownIndex, store := s.store, transitions := s.transitions) == s
  {
  }

  // ---------------------------------------------------------------- goToSlide and the scroll mapping

  /** Slide 0 sits at the start of the region and the last slide at its end. */
  lemma SlideOffsetEnds(rg: Region, total: SlideCount)
    ensures SlideOffset(rg, 0, total) == rg.start
    ensures SlideOffset(rg, total - 1, total) == rg.end
  {
    var n := (total - 1) as real;
    assert (total - 1) as real / n == 1.0;
  }

  /** Reading the progress back from the offset gives `k / (total - 1)`: offset and index agree. */
  lemma SlideOffsetProgress(rg: Region, k: int, total: SlideCount)
    requires rg.end != rg.start
    ensures (SlideOffset(rg, k, total) - rg.start) / (rg.end - rg.start) == k as real / (total - 1) as real
  {
    var f := k as real / (total - 1) as real;
    var h := rg.end - rg.start;
    assert SlideOffset(rg, k, total) - rg.start == f * h;
    assert (f * h) / h == f;
  }

  /** Over a region of non-negative height, later slides sit no higher, and all sit inside it. */
  lemma SlideOffsetMonotone(rg: Region, j: int, k: int, total: SlideCount)
    requires rg.start <= rg.end && 0 <= j <= k < total
    ensures rg.start <= SlideOffset(rg, j, total) <= SlideOffset(rg, k, total) <= rg.end
  {
    var n := (total - 1) as real;
    var fj, fk := j as real / n, k as real / n;
    FractionsOrdered(j, k, total);
    PointsOrdered(rg, fj, fk);
  }

  /** `j / (total - 1)` and `k / (total - 1)` lie in order within [0, 1]. */
  lemma FractionsOrdered(j: int, k: int, total: SlideCount)
    requires 0 <= j <= k < total
    ensures 0.0 <= j as real / (total - 1) as real <= k as real / (total - 1) as real <= 1.0
  {
    var n := (total - 1) as real;
    DivMonotone(0.0, j as real, n);
    DivMonotone(j as real, k as real, n);
    DivMonotone(k as real, n, n);
    assert 0.0 / n == 0.0 && n / n == 1.0;
  }

  /** Points at fractions `f <= g` of a region lie in order within it. */
  lemma PointsOrdered(rg: Region, f: real, g: real)
    requires rg.start <= rg.end && 0.0 <= f <= g <= 1.0
    ensures rg.start <= rg.start + f * (rg.end - rg.start)
    ensures rg.start + f * (rg.end - rg.start) <= rg.start + g * (rg.end - rg.start) <= rg.end
  {
    var h := rg.end - rg.start;
    MulMonotone(0.0, f, h);
    MulMonotone(f, g, h);
    MulMonotone(g, 1.0, h);
  }

  lemma DivMonotone(a: real, b: real, n: real)
    requires a <= b && 0.0 < n
    ensures a / n <= b / n
  {
    var x, y := a / n, b / n;
    assert x * n == a && y * n == b;
    if x > y {
      MulMonotone(y, x, n);
    }
  }

  lemma MulMonotone(a: real, b: real, h: real)
    requires a <= b && 0.0 <= h
    ensures a * h <= b * h
  {
  }

  /**
   * `goToSlide` does nothing before the trigger exists; afterwards the
   * index becomes the clamped target and the scroll offset that slide's
   * offset, and the lock, clock, pin and engine are left alone.
   */
  lemma GoToSlideSpec(s: State, index: int)
    ensures s.trigger == None ==> GoToSlide(s, index) == s
    ensures s.trigger.Some? ==>
      var r := GoToSlide(s, index);
      var k := Clamp(index, s.total);
      && r.activeIndex == k
      && r.scrollY == SlideOffset(s.trigger.value, k, s.total)
      && r.locked == s.locked && r.releaseAt == s.releaseAt && r.now == s.now
      && r.pinned == s.pinned && r.listening == s.listening && r.engine == s.engine
      && r.trigger == s.trigger && r.touchStartY == s.touchStartY
      && (k == s.activeIndex ==> r.transitions == s.transitions && r.store == s.store)
      && (k != s.activeIndex ==>
            && r.shownIndex == k && r.store == WithCurrentIndex(s.store, k)
            && r.transitions == s.transitions + [Transition(s.activeIndex, k, DirectionOf(s.activeIndex, k))])
  {
  }

  // ---------------------------------------------------------------- the wheel handler

  /** An input classification in the controller's own terms. */
  datatype Action = Ignore | Passthrough | Next | Prev

  /**
   * The rule an input arbiter applies to a non-zero delta: a held lock
   * ignores; a step past either end passes through; otherwise the sign of
   * the delta picks the direction.
   */
  function Arbitrate(locked: bool, index: int, total: SlideCount, delta: real): Action
    requires delta != 0.0
  {
    if locked then Ignore
    else if delta > 0.0 && index == total - 1 then Passthrough
    else if delta < 0.0 && index == 0 then Passthrough
    else if delta > 0.0 then Next
    else Prev
  }

  /** While pinned, the wheel handler follows that rule for every non-zero delta. */
  lemma WheelFollowsArbiter(s: State, deltaY: real)
    requires Valid(s) && s.listening && s.pinned && deltaY != 0.0
    ensures var r := OnWheel(s, deltaY);
      match Arbitrate(s.locked, s.activeIndex, s.total, deltaY)
      case Ignore => r == s && !WheelIntercepted(s, deltaY)
      case Passthrough => r == s && !WheelIntercepted(s, deltaY)
      case Next => WheelIntercepted(s, deltaY) && r.activeIndex == s.activeIndex + 1 && r.locked
      case Prev => WheelIntercepted(s, deltaY) && r.activeIndex == s.activeIndex - 1 && r.locked
  {
  }

  /** Unpinned, detached or locked: the event is neither taken nor acted on. */
  lemma WheelIgnored(s: State, deltaY: real)
    requires !s.listening || !s.pinned || s.locked
    ensures OnWheel(s, deltaY) == s && !WheelIntercepted(s, deltaY)
  {
  }

  /** Scrolling up at the first slide or down at the last passes the event through. */
  lemma WheelPassthroughAtEnds(s: State, deltaY: real)
    requires (deltaY < 0.0 && s.activeIndex == 0) || (deltaY > 0.0 && s.activeIndex == s.total - 1)
    ensures OnWheel(s, deltaY) == s && !WheelIntercepted(s, deltaY)
  {
  }

  /**
   * An accepted wheel event takes the lock for one wheel cooldown and
   * moves exactly one step: down for a positive delta, up for anything
   * else (a zero delta included), never above slide 0.
   */
  lemma WheelAcceptedStep(s: State, deltaY: real)
    requires Valid(s) && WheelIntercepted(s, deltaY)
    ensures var r := OnWheel(s, deltaY);
      && r.locked && r.releaseAt == s.now + WheelCooldownMs
      && r.activeIndex == (if deltaY > 0.0 then s.activeIndex + 1 else Max(s.activeIndex - 1, 0))
      && r.scrollY == SlideOffset(s.trigger.value, r.activeIndex, s.total)
      && r.pinned == s.pinned && r.now == s.now && r.engine == s.engine
  {
  }

  /** A wheel event with no vertical delta while pinned is a backward step. */
  lemma ZeroDeltaStepsBack(s: State)
    requires Valid(s) && s.listening && s.pinned && !s.locked
    ensures s.activeIndex > 0 ==> OnWheel(s, 0.0).activeIndex == s.activeIndex - 1
    ensures s.activeIndex == 0 ==> OnWheel(s, 0.0).activeIndex == 0
    ensures OnWheel(s, 0.0).locked && OnWheel(s, 0.0).releaseAt == s.now + WheelCooldownMs
  {
  }

  /** A second wheel event sooner than the cooldown is dropped: the index stays where the first put it. */
  lemma SecondWheelWithinCooldownIgnored(s: State, d1: real, d2: real, gap: nat)
    requires Valid(s) && WheelIntercepted(s, d1) && gap < WheelCooldownMs
    ensures var s1 := Elapse(OnWheel(s, d1), gap);
      s1.locked && OnWheel(s1, d2) == s1
  {
  }

  /** Once the cooldown has passed the lock is free and a second event is judged afresh. */
  lemma SecondWheelAfterCooldownJudged(s: State, d1: real, d2: real, gap: nat)
    requires Valid(s) && WheelIntercepted(s, d1) && gap >= WheelCooldownMs
    ensures var s1 := Elapse(OnWheel(s, d1), gap);
      && !s1.locked
      && (WheelIntercepted(s1, d2) <==>
            !(d2 < 0.0 && s1.activeIndex == 0) && !(d2 > 0.0 && s1.activeIndex == s.total - 1))
  {
  }

  /** `k` wheel events with the same delta, each followed by a full cooldown. */
  function SpacedWheels(k: nat, deltaY: real): (es: seq<Event>)
    ensures |es| == 2 * k
  {
    if k == 0 then [] else [Wheel(deltaY), Tick(WheelCooldownMs)] + SpacedWheels(k - 1, deltaY)
  }

  /** Running two events first is running one and then the other. */
  lemma RunTwoFirst(s: State, e1: Event, e2: Event, rest: seq<Event>)
    ensures Run(s, [e1, e2] + rest) == Run(Step(Step(s, e1), e2), rest)
  {
    var es := [e1, e2] + rest;
    assert es[0] == e1 && es[1..] == [e2] + rest;
    assert ([e2] + rest)[0] == e2 && ([e2] + rest)[1..] == rest;
  }

  /** One spaced wheel step: the lock is free again afterwards and the index moved by at most one. */
  lemma SpacedStep(s: State, deltaY: real)
    requires Valid(s) && s.listening && s.pinned && !s.locked && deltaY != 0.0
    ensures var r := Elapse(OnWheel(s, deltaY), WheelCooldownMs);
      && Valid(r) && r.listening && r.pinned && !r.locked
      && r.activeIndex == StepTarget(s.activeIndex, s.total, deltaY > 0.0)
  {
  }

  /**
   * Forward wheel events spaced by the cooldown while pinned climb one
   * slide each and stop at the last one.
   */
  lemma {:induction false} ForwardWheelsClimb(s: State, k: nat, deltaY: real)
    requires Valid(s) && s.listening && s.pinned && !s.locked && deltaY > 0.0
    ensures var r := Run(s, SpacedWheels(k, deltaY));
      Valid(r) && r.pinned && !r.locked && r.activeIndex == Min(s.activeIndex + k, s.total - 1)
    decreases k
  {
    if k > 0 {
      RunTwoFirst(s, Wheel(deltaY), Tick(WheelCooldownMs), SpacedWheels(k - 1, deltaY));
      SpacedStep(s, deltaY);
      ForwardWheelsClimb(Elapse(OnWheel(s, deltaY), WheelCooldownMs), k - 1, deltaY);
    }
  }

  /** Backward wheel events spaced by the cooldown descend one slide each and stop at slide 0. */
  lemma {:induction false} BackwardWheelsDescend(s: State, k: nat, deltaY: real)
    requires Valid(s) && s.listening && s.pinned && !s.locked && deltaY < 0.0
    ensures var r := Run(s, SpacedWheels(k, deltaY));
      Valid(r) && r.pinned && !r.locked && r.activeIndex == Max(s.activeIndex - k, 0)
    decreases k
  {
    if k > 0 {
      RunTwoFirst(s, Wheel(deltaY), Tick(WheelCooldownMs), SpacedWheels(k - 1, deltaY));
      SpacedStep(s, deltaY);
      BackwardWheelsDescend(Elapse(OnWheel(s, deltaY), WheelCooldownMs), k - 1, deltaY);
    }
  }

  // ---------------------------------------------------------------- touch handlers

  /** A swipe shorter than the threshold does nothing. */
  lemma ShortSwipeIgnored(s: State, y: real)
    requires Abs(s.touchStartY - y) < SwipeThreshold
    ensures OnTouchEnd(s, y) == s
  {
  }

  /** A long enough swipe away from the ends moves one step and locks for the touch cooldown. */
  lemma SwipeAcceptedStep(s: State, y: real)
    requires Valid(s) && s.listening && s.pinned && !s.locked
    requires Abs(s.touchStartY - y) >= SwipeThreshold
    requires !(s.touchStartY - y < 0.0 && s.activeIndex == 0)
    requires !(s.touchStartY - y > 0.0 && s.activeIndex == s.total - 1)
    ensures var r := OnTouchEnd(s, y);
      && r.locked && r.releaseAt == s.now + TouchCooldownMs
      && r.activeIndex == (if s.touchStartY - y > 0.0 then s.activeIndex + 1 else s.activeIndex - 1)
  {
  }

  /**
   * While pinned, a swipe of at least the threshold follows the same rule
   * as the wheel: a held lock ignores it, a swipe back at slide 0 or
   * onwards at the last slide passes through, otherwise it steps once in
   * the swipe's direction and locks for the touch cooldown.
   */
  lemma TouchEndFollowsArbiter(s: State, y: real)
    requires Valid(s) && s.listening && s.pinned && Abs(s.touchStartY - y) >= SwipeThreshold
    ensures var r := OnTouchEnd(s, y);
      match Arbitrate(s.locked, s.activeIndex, s.total, s.touchStartY - y)
      case Ignore => r == s
      case Passthrough => r == s
      case Next => r.activeIndex == s.activeIndex + 1 && r.locked && r.releaseAt == s.now + TouchCooldownMs
      case Prev => r.activeIndex == s.activeIndex - 1 && r.locked && r.releaseAt == s.now + TouchCooldownMs
  {
  }

  /** Unpinned or detached: a touch end does nothing. */
  lemma TouchEndIgnored(s: State, y: real)
    requires !s.listening || !s.pinned
    ensures OnTouchEnd(s, y) == s
  {
  }

  /** A run of touchmove events. */
  predicate AllMoves(es: seq<Event>) {
    forall i :: 0 <= i < |es| ==> es[i].TouchMove?
  }

  lemma {:induction false} MovesChangeNothing(s: State, moves: seq<Event>)
    requires AllMoves(moves)
    ensures Run(s, moves) == s
    decreases |moves|
  {
    if moves != [] {
      assert AllMoves(moves[1..]) by {
        forall i | 0 <= i < |moves[1..]| ensures moves[1..][i].TouchMove? {
          assert moves[1..][i] == moves[i + 1];
        }
      }
      MovesChangeNothing(s, moves[1..]);
    }
  }

  /**
   * The swipe is judged from where the finger went down and where it came
   * up alone: any touchmove events in between count for nothing.
   */
  lemma {:induction false} SwipeJudgedFromEnds(s: State, y0: real, moves: seq<Event>, y1: real)
    requires AllMoves(moves)
    ensures Run(s, [TouchStart(y0)] + moves + [TouchEnd(y1)]) == OnTouchEnd(OnTouchStart(s, y0), y1)
  {
    var s0 := OnTouchStart(s, y0);
    var es := [TouchStart(y0)] + moves + [TouchEnd(y1)];
    assert es[0] == TouchStart(y0) && es[1..] == moves + [TouchEnd(y1)];
    RunAppend(s0, moves, [TouchEnd(y1)]);
    MovesChangeNothing(s0, moves);
    assert [TouchEnd(y1)][1..] == [];
  }

  lemma {:induction false} RunAppend(s: State, a: seq<Event>, b: seq<Event>)
    ensures Run(s, a + b) == Run(Run(s, a), b)
    decreases |a|
  {
    if a == [] {
      assert a + b == b;
    } else {
      assert (a + b)[0] == a[0] && (a + b)[1..] == a[1..] + b;
      RunAppend(Step(s, a[0]), a[1..], b);
    }
  }

  // ---------------------------------------------------------------- dots

  /** A dot click while locked is dropped, not queued. */
  lemma DotDroppedWhileLocked(s: State, index: int)
    requires s.locked
    ensures OnDotClick(s, index) == s
  {
  }

  /** A dot click on the current slide still takes the lock, but hands no transition to the animation layer. */
  lemma DotOnCurrentSlideLocks(s: State)
    requires Valid(s) && !s.locked
    ensures var r := OnDotClick(s, s.activeIndex);
      && r.locked && r.releaseAt == s.now + DotCooldownMs
      && r.activeIndex == s.activeIndex && r.transitions == s.transitions
  {
  }

  /** A dot click on another slide goes there in one transition and jumps the scroll offset to it. */
  lemma DotClickGoesTo(s: State, index: int)
    requires Valid(s) && !s.locked && s.trigger.Some?
    requires 0 <= index < s.total && index != s.activeIndex
    ensures var r := OnDotClick(s, index);
      && r.locked && r.releaseAt == s.now + DotCooldownMs
      && r.activeIndex == index && r.store.currentIndex == index
      && r.transitions == s.transitions + [Transition(s.activeIndex, index, if index > s.activeIndex then 1 else -1)]
      && r.scrollY == SlideOffset(s.trigger.value, index, s.total)
  {
  }

  // ---------------------------------------------------------------- pinning and the engine

  /** Entering pins and stops the engine; leaving unpins and starts it. */
  lemma PinCallbacks(s: State, engineExists: bool)
    requires s.listening
    ensures OnPinEnter(s, engineExists).pinned
    ensures OnPinEnter(s, engineExists).engine == s.engine + if engineExists then [Stop] else []
    ensures !OnPinLeave(s, engineExists).pinned
    ensures OnPinLeave(s, engineExists).engine == s.engine + if engineExists then [Start] else []
  {
  }

  /** There is no guard against a repeated callback: entering twice stops the engine twice. */
  lemma RepeatedEnterStopsTwice(s: State)
    requires s.listening
    ensures OnPinEnter(OnPinEnter(s, true), true).engine == s.engine + [Stop, Stop]
  {
  }

  /** Clean-up after set-up starts the engine and detaches the handlers. */
  lemma CleanupStartsEngine(s: State)
    requires s.listening
    ensures Cleanup(s, true).engine == s.engine + [Start] && !Cleanup(s, true).listening
  {
  }

  /** Clean-up runs once: with nothing attached (no set-up, or already cleaned up) it changes nothing. */
  lemma CleanupOnce(s: State, engineExists: bool, again: bool)
    ensures !s.listening ==> Cleanup(s, engineExists) == s
    ensures Cleanup(Cleanup(s, engineExists), again) == Cleanup(s, engineExists)
  {
  }

  /** Clean-up resets none of the refs: index, lock, pinned flag, touch start and trigger keep their values. */
  lemma CleanupKeepsRefs(s: State, engineExists: bool)
    ensures var r := Cleanup(s, engineExists);
      && r.activeIndex == s.activeIndex && r.shownIndex == s.shownIndex
      && r.locked == s.locked && r.releaseAt == s.releaseAt
      && r.pinned == s.pinned && r.touchStartY == s.touchStartY
      && r.trigger == s.trigger && r.store == s.store
  {
  }

  /** Leaving the pinned region does not release a held lock. */
  lemma LeaveKeepsLock(s: State, engineExists: bool)
    ensures OnPinLeave(s, engineExists).locked == s.locked
    ensures OnPinLeave(s, engineExists).releaseAt == s.releaseAt
  {
  }

  // ---------------------------------------------------------------- the lock and its timer

  /** Only the release timer frees a held lock: no other event clears it or moves its release time. */
  lemma LockReleasedOnlyByTimer(s: State, e: Event)
    requires s.locked && !e.Tick?
    ensures Step(s, e).locked && Step(s, e).releaseAt == s.releaseAt
  {
  }

  /** A run of events with no clock tick in it. */
  predicate NoTicks(es: seq<Event>) {
    forall i :: 0 <= i < |es| ==> !es[i].Tick?
  }

  /** However many events arrive before the clock moves, a held lock stays held with the same release time. */
  lemma {:induction false} NoTickKeepsLock(s: State, es: seq<Event>)
    requires s.locked && NoTicks(es)
    ensures Run(s, es).locked && Run(s, es).releaseAt == s.releaseAt
    decreases |es|
  {
    if es != [] {
      LockReleasedOnlyByTimer(s, es[0]);
      assert NoTicks(es[1..]) by {
        forall i | 0 <= i < |es[1..]| ensures !es[1..][i].Tick? {
          assert es[1..][i] == es[i + 1];
        }
      }
      NoTickKeepsLock(Step(s, es[0]), es[1..]);
    }
  }

  /** A held lock never sticks: one wheel cooldown later, the longest any handler takes it for, it is free. */
  lemma LockAlwaysExpires(s: State)
    requires Valid(s)
    ensures !Elapse(s, WheelCooldownMs).locked
  {
  }

  // ---------------------------------------------------------------- set-up and the invariant

  /** Set-up waits for the images and the section. */
  lemma SetupWaits(s: State, imagesLoaded: bool, sectionMounted: bool, top: real, vh: real)
    requires !imagesLoaded || !sectionMounted
    ensures Setup(s, imagesLoaded, sectionMounted, top, vh) == s
  {
  }

  /**
   * Set-up starts at slide 0 whatever the index was, hands the transition
   * (-1, 0, +1) to the animation layer, and leaves the controller valid
   * and in step with its store.
   */
  lemma SetupStartsAtFirstSlide(s: State, top: real, vh: real)
    requires Valid(s)
    ensures var r := Setup(s, true, true, top, vh);
      && Valid(r) && Synced(r) && r.activeIndex == 0 && r.listening
      && r.trigger == Some(PinnedRegion(top, vh, s.total))
      && r.transitions == s.transitions + [Transition(-1, 0, 1)]
  {
  }

  /**
   * A viewport of zero height is not deferred: set-up still attaches the
   * listeners over an empty region, and entering it pins and stops the engine.
   */
  lemma ZeroHeightNotDeferred(s: State, top: real)
    ensures var r := Setup(s, true, true, top, 0.0);
      && r.trigger == Some(Region(top, top)) && r.listening
      && OnPinEnter(r, true).pinned && OnPinEnter(r, true).engine == s.engine + [Stop]
  {
  }

  /** Every single event keeps the invariant, and keeps the store in step. */
  lemma StepPreservesValid(s: State, e: Event)
    requires Valid(s)
    ensures Valid(Step(s, e))
    ensures Synced(s) ==> Synced(Step(s, e))
  {
  }

  /** So does every sequence of events: the index never leaves the slides. */
  lemma {:induction false} RunPreservesValid(s: State, es: seq<Event>)
    requires Valid(s)
    ensures Valid(Run(s, es)) && 0 <= Run(s, es).activeIndex < s.total
    ensures Synced(s) ==> Synced(Run(s, es))
    decreases |es|
  {
    if es != [] {
      StepPreservesValid(s, es[0]);
      RunPreservesValid(Step(s, es[0]), es[1..]);
    }
  }

  /** From creation onwards, whatever happens, the index is a slide. */
  lemma IndexAlwaysASlide(total: SlideCount, scrollY: real, store: StoreState, es: seq<Event>)
    ensures 0 <= Run(Created(total, scrollY, store), es).activeIndex < total
  {
    RunPreservesValid(Created(total, scrollY, store), es);
  }

  // ---------------------------------------------------------------- two scenarios with the seven slides

  /**
   * From slide 0: a wheel step down moves to 1; an immediate second one is
   * dropped; after the cooldown another reaches 2; two steps up spaced by
   * the cooldown return to 0; one more step up passes through.
   */
  lemma WheelScenario(s: State)
    requires Valid(s) && s.total == CoffeeCount && s.activeIndex == 0
    requires s.listening && s.pinned && !s.locked
    ensures var s1 := OnWheel(s, 1.0);
      var s2 := OnWheel(s1, 1.0);
      var s3 := OnWheel(Elapse(s2, WheelCooldownMs), 1.0);
      var s4 := OnWheel(Elapse(s3, WheelCooldownMs), -1.0);
      var s5 := OnWheel(Elapse(s4, WheelCooldownMs), -1.0);
      var s6 := Elapse(s5, WheelCooldownMs);
      && s1.activeIndex == 1 && s2 == s1 && s3.activeIndex == 2
      && s4.activeIndex == 1 && s5.activeIndex == 0
      && !WheelIntercepted(s6, -1.0) && OnWheel(s6, -1.0) == s6
  {
  }

  /** From slide 2, a click on dot 5 is one forward transition to 5, at 5/6 of the region, locked for 700 ms. */
  lemma DotScenario(s: State)
    requires Valid(s) && s.total == CoffeeCount && s.activeIndex == 2 && !s.locked && s.trigger.Some?
    ensures var r := OnDotClick(s, 5);
      && r.activeIndex == 5
      && r.transitions == s.transitions + [Transition(2, 5, 1)]
      && r.scrollY == s.trigger.value.start + (5.0 / 6.0) * (s.trigger.value.end - s.trigger.value.start)
      && r.locked && Elapse(r, DotCooldownMs - 1).locked && !Elapse(r, DotCooldownMs).locked
  {
  }
}
