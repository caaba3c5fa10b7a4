/**
 * The coffee showcase's controller as the component runs it: mutable
 * fields for its refs, one method per handler, each updating the fields in
 * place. Every method is proved to leave the object in exactly the state
 * the matching function of module SlideControl gives, so the properties
 * proved in module SlideProperties hold of the object too.
 */
module Showcase {
  import opened Wrappers
  import opened ScrollStore
  import SlideControl

  class CoffeeScrollShowcase {
    const total: SlideControl.SlideCount
    /** The shared companion store the controller writes its index to. */
    const store: CoffeeScrollStore

    var activeIndex: int
    var shownIndex: int
    var locked: bool
    var releaseAt: int
    var now: int
    var pinned: bool
    var touchStartY: real
    var trigger: Option<SlideControl.Region>
    var scrollY: real
    var listening: bool
    var transitions: seq<SlideControl.Transition>
    var engineLog: seq<SlideControl.EngineCall>

    /** The object's state as a value. */
    function Abstract(): SlideControl.State
      reads this, store
    {
      SlideControl.State(total, activeIndex, shownIndex, locked, releaseAt, now, pinned,
        touchStartY, trigger, scrollY, listening, store.Snapshot(), transitions, engineLog)
    }

    ghost predicate Valid()
      reads this, store
    {
      SlideControl.Valid(Abstract())
    }

    /** The refs as the component creates them, before any effect has run. */
    constructor (total: SlideControl.SlideCount, store: CoffeeScrollStore, scrollY: real)
      ensures Valid()
      ensures Abstract() == SlideControl.Created(total, scrollY, store.Snapshot())
    {
      this.total := total;
      this.store := store;
      activeIndex, shownIndex := 0, 0;
      locked, releaseAt, now := false, 0, 0;
      pinned, touchStartY := false, 0.0;
      trigger, this.scrollY, listening := None, scrollY, false;
      transitions, engineLog := [], [];
    }

    /** `animateToIndex` without its tweens. */
    method AnimateToIndex(index: int, force: bool)
      modifies this, store
      ensures Abstract() == SlideControl.AnimateToIndex(old(Abstract()), index, force)
    {
      if index < 0 || index >= total {
        return;
      }
      var prevIndex := activeIndex;
      if index == prevIndex && !force {
        return;
      }
      var direction := if prevIndex < 0 then 1 else if index > prevIndex then 1 else -1;
      activeIndex := index;
      shownIndex := index;
      store.SetCurrentIndex(index);
      transitions := transitions + [SlideControl.Transition(prevIndex, index, direction)];
    }

    method GoToSlide(index: int)
      modifies this, store
      ensures Abstract() == SlideControl.GoToSlide(old(Abstract()), index)
    {
      if trigger.None? {
        return;
      }
      var st := trigger.value;
      var clamped := SlideControl.Max(0, SlideControl.Min(total - 1, index));
      AnimateToIndex(clamped, false);
      scrollY := SlideControl.SlideOffset(st, clamped, total);
    }

    /** The pending `setTimeout` releases: let `ms` milliseconds pass. */
    method Elapse(ms: nat)
      requires Valid()
      modifies this
      ensures Valid()
      ensures Abstract() == SlideControl.Elapse(old(Abstract()), ms)
    {
      now := now + ms;
      if locked && releaseAt <= now {
        locked := false;
      }
    }

    /** Returns whether the handler calls `preventDefault`. */
    method HandleWheel(deltaY: real) returns (prevented: bool)
      requires Valid()
      modifies this, store
      ensures Valid()
      ensures Abstract() == SlideControl.OnWheel(old(Abstract()), deltaY)
      ensures prevented == SlideControl.WheelIntercepted(old(Abstract()), deltaY)
    {
      prevented := false;
      if !listening || !pinned || locked {
        return;
      }
      var currentIdx := activeIndex;
      var goingDown := deltaY > 0.0;
      var goingUp := deltaY < 0.0;
      if goingUp && currentIdx == 0 {
        return;
      }
      if goingDown && currentIdx == total - 1 {
        return;
      }
      prevented := true;
      locked := true;
      var nextIdx := if goingDown then SlideControl.Min(currentIdx + 1, total - 1)
                     else SlideControl.Max(currentIdx - 1, 0);
      GoToSlide(nextIdx);
      releaseAt := now + SlideControl.WheelCooldownMs;
    }

    method HandleTouchStart(y: real)
      requires Valid()
      modifies this
      ensures Valid()
      ensures Abstract() == SlideControl.OnTouchStart(old(Abstract()), y)
    {
      if !listening || !pinned {
        return;
      }
      touchStartY := y;
    }

    /** Changes nothing; returns whether the handler calls `preventDefault`. */
    method HandleTouchMove(y: real) returns (prevented: bool)
      ensures prevented == SlideControl.TouchMovePrevents(Abstract(), y)
    {
      prevented := false;
      if !listening || !pinned {
        return;
      }
      var currentIdx := activeIndex;
      var deltaY := touchStartY - y;
      if deltaY < 0.0 && currentIdx == 0 {
        return;
      }
      if deltaY > 0.0 && currentIdx == total - 1 {
        return;
      }
      prevented := true;
    }

    method HandleTouchEnd(y: real)
      requires Valid()
      modifies this, store
      ensures Valid()
      ensures Abstract() == SlideControl.OnTouchEnd(old(Abstract()), y)
    {
      if !listening || !pinned || locked {
        return;
      }
      var deltaY := touchStartY - y;
      if SlideControl.Abs(deltaY) < SlideControl.SwipeThreshold {
        return;
      }
      var currentIdx := activeIndex;
      var goingDown := deltaY > 0.0;
      var goingUp := deltaY < 0.0;
      if goingUp && currentIdx == 0 {
        return;
      }
      if goingDown && currentIdx == total - 1 {
        return;
      }
      locked := true;
      var nextIdx := if goingDown then SlideControl.Min(currentIdx + 1, total - 1)
                     else SlideControl.Max(currentIdx - 1, 0);
      GoToSlide(nextIdx);
      releaseAt := now + SlideControl.TouchCooldownMs;
    }

    method HandleDotClick(index: int)
      requires Valid()
      modifies this, store
      ensures Valid()
      ensures Abstract() == SlideControl.OnDotClick(old(Abstract()), index)
    {
      if locked {
        return;
      }
      locked := true;
      GoToSlide(index);
      releaseAt := now + SlideControl.DotCooldownMs;
    }

    /** `onEnter` and `onEnterBack`; `engineExists` is whether the engine global is set. */
    method OnPinEnter(engineExists: bool)
      requires Valid()
      modifies this
      ensures Valid()
      ensures Abstract() == SlideControl.OnPinEnter(old(Abstract()), engineExists)
    {
      if !listening {
        return;
      }
      pinned := true;
      if engineExists {
        engineLog := engineLog + [SlideControl.Stop];
      }
    }

    /** `onLeave` and `onLeaveBack`. */
    method OnPinLeave(engineExists: bool)
      requires Valid()
      modifies this
      ensures Valid()
      ensures Abstract() == SlideControl.OnPinLeave(old(Abstract()), engineExists)
    {
      if !listening {
        return;
      }
      pinned := false;
      if engineExists {
        engineLog := engineLog + [SlideControl.Start];
      }
    }

    /** The effect's body: initial slide, trigger creation, listeners attached. */
    method Setup(imagesLoaded: bool, sectionMounted: bool, top: real, viewportHeight: real)
      requires Valid()
      modifies this, store
      ensures Valid()
      ensures Abstract() == SlideControl.Setup(old(Abstract()), imagesLoaded, sectionMounted, top, viewportHeight)
    {
      if !imagesLoaded || !sectionMounted {
        return;
      }
      activeIndex := -1;
      AnimateToIndex(0, true);
      trigger := Some(SlideControl.PinnedRegion(top, viewportHeight, total));
      listening := true;
    }

    /** The effect's clean-up. */
    method Cleanup(engineExists: bool)
      requires Valid()
      modifies this
      ensures Valid()
      ensures Abstract() == SlideControl.Cleanup(old(Abstract()), engineExists)
    {
      if !listening {
        return;
      }
      listening := false;
      if engineExists {
        engineLog := engineLog + [SlideControl.Start];
      }
    }
  }
}
