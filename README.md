# Coffee showcase controller and catalog logic, in Dafny

This project models three pieces of the Green Acres coffee platform and
proves properties about them.

- **The scroll-hijacking slide controller** of the coffee showcase
  (`CoffeeScrollShowcase.tsx`). While the section is pinned, wheel, swipe
  and navigation-dot input moves a slide index one step at a time. A timed
  lock refuses input after each accepted step. Input at the first and last
  slide passes through so the page can scroll on. The native scroll offset
  jumps to the chosen slide. The smooth-scroll engine is stopped on entering
  the pinned region and started on leaving it.
  - `slide_control.dfy` holds the controller's state as a value, with one
    transition function per handler.
  - `showcase.dfy` holds the class `CoffeeScrollShowcase`. Its fields are the
    component's refs, and it has one method per handler. Each method is
    proved to leave the object exactly in the state the matching transition
    function gives.
  - `slide_properties.dfy` proves what the handlers promise.
  - The `setTimeout` releases are modelled as a logical clock: taking the
    lock records when its release fires, and `Elapse` lets time pass.
- **The companion store** (`useCoffeeScrollStore.ts`, in `scroll_store.dfy`).
  It has three fields, and each setter overwrites exactly one of them. The
  store is a class, and the setters' effects are also stated as pure
  functions.
- **The in-memory catalog logic** (`coffees.ts`, in `coffees.dfy`):
  - `docToCoffee`, which reads a sparse stored document with per-field
    defaults;
  - the body of `filterCoffees`, which narrows the list criterion by
    criterion and then sorts it stably;
  - the patch `updateCoffee` writes, and the two wrappers over it;
  - `getCoffeeCount`.

  Database reads and clock readings are replaced by parameters: the queried
  coffees arrive as a sequence, the collection as a map from document id to
  fields, and the local clock of the process running the code (`new Date()`,
  `Timestamp.now()`) as a number. `js_strings.dfy` models the string
  operations the filters and sorts use: `toLowerCase`, `includes` and `parseInt`.
  `seqs.dfy` models `Array.prototype.filter` and the engine's stable `sort`
  with a numeric comparator.

The controller's quirks are modelled as the code has them, and each is
stated as a lemma:

- A wheel event with zero vertical delta is neither "down" nor "up", so it
  passes both boundary checks and then steps back one slide (at slide 0 it
  stays there, but still takes the lock and jumps the scroll offset)
  (`apps/web/src/components/CoffeeScrollShowcase.tsx:346-361`, `ZeroDeltaStepsBack`).
- A dot click takes the lock for 700 ms even when it targets the current
  slide, although no transition happens (`apps/web/src/components/CoffeeScrollShowcase.tsx:441-448`,
  `DotOnCurrentSlideLocks`).
- A swipe is judged from the touchstart and touchend positions only; the
  touchmove handler only decides whether to call `preventDefault`
  (`apps/web/src/components/CoffeeScrollShowcase.tsx:374-398`, `SwipeJudgedFromEnds`, `MovesChangeNothing`).
- The enter and leave callbacks stop and start the engine with no guard
  against repeats (`apps/web/src/components/CoffeeScrollShowcase.tsx:310-330`, `RepeatedEnterStopsTwice`).
- Leaving the pinned region neither releases nor reschedules a held lock
  (`apps/web/src/components/CoffeeScrollShowcase.tsx:316-330`, `LeaveKeepsLock`).
- Set-up waits only for the images and the section. A viewport of zero
  height is not deferred: the trigger is created over an empty region and
  the listeners are attached (`apps/web/src/components/CoffeeScrollShowcase.tsx:296-310`, `ZeroHeightNotDeferred`).
- Clean-up detaches the listeners and starts the engine but resets no ref:
  index, lock and pinned flag keep their values (`apps/web/src/components/CoffeeScrollShowcase.tsx:427-437`,
  `CleanupKeepsRefs`).

## Model

| member | source | states |
|---|---|---|
| Showcase.CoffeeScrollShowcase.constructor | apps/web/src/components/CoffeeScrollShowcase.tsx:60-64 | the refs start at index 0, unlocked, unpinned, touch start 0, no trigger; the controller invariant holds |
| Showcase.CoffeeScrollShowcase.AnimateToIndex | apps/web/src/components/CoffeeScrollShowcase.tsx:106-118 | updating the fields in place gives exactly `SlideControl.AnimateToIndex` of the old state (index, rendered index, store write, one transition) |
| Showcase.CoffeeScrollShowcase.GoToSlide | apps/web/src/components/CoffeeScrollShowcase.tsx:276-293 | the in-place update equals `SlideControl.GoToSlide`: nothing before the trigger exists, else animate to the clamped index and jump the scroll offset |
| Showcase.CoffeeScrollShowcase.Elapse | apps/web/src/components/CoffeeScrollShowcase.tsx:366-368 | letting time pass fires the pending release timer exactly when it is due; the invariant is kept |
| Showcase.CoffeeScrollShowcase.HandleWheel | apps/web/src/components/CoffeeScrollShowcase.tsx:342-369 | the new state is `SlideControl.OnWheel` of the old one and `preventDefault` is called exactly when `WheelIntercepted` holds; the invariant is kept |
| Showcase.CoffeeScrollShowcase.HandleTouchStart | apps/web/src/components/CoffeeScrollShowcase.tsx:374-377 | records the touch start only while pinned |
| Showcase.CoffeeScrollShowcase.HandleTouchMove | apps/web/src/components/CoffeeScrollShowcase.tsx:379-392 | changes nothing; calls `preventDefault` exactly when `TouchMovePrevents` holds (pinned and not pushing past an end) |
| Showcase.CoffeeScrollShowcase.HandleTouchEnd | apps/web/src/components/CoffeeScrollShowcase.tsx:394-419 | the in-place update equals `SlideControl.OnTouchEnd`; the invariant is kept |
| Showcase.CoffeeScrollShowcase.HandleDotClick | apps/web/src/components/CoffeeScrollShowcase.tsx:441-448 | the in-place update equals `SlideControl.OnDotClick`; the invariant is kept |
| Showcase.CoffeeScrollShowcase.OnPinEnter | apps/web/src/components/CoffeeScrollShowcase.tsx:310-315 | sets pinned and logs one engine stop when the engine exists (also `onEnterBack`, lines 321-325) |
| Showcase.CoffeeScrollShowcase.OnPinLeave | apps/web/src/components/CoffeeScrollShowcase.tsx:316-320 | clears pinned and logs one engine start when the engine exists (also `onLeaveBack`, lines 326-330) |
| Showcase.CoffeeScrollShowcase.Setup | apps/web/src/components/CoffeeScrollShowcase.tsx:296-339 | waits for images and section; otherwise index -1 then forced to slide 0, trigger created, listeners attached |
| Showcase.CoffeeScrollShowcase.Cleanup | apps/web/src/components/CoffeeScrollShowcase.tsx:297-437 | the in-place update equals `SlideControl.Cleanup`: nothing when set-up never attached the handlers, else detach them and start the engine when it exists; the invariant is kept |
| SlideControl.Clamp | apps/web/src/components/CoffeeScrollShowcase.tsx:281 | the index lies within the slides, is kept when already inside, and is clamped to the nearest end otherwise |
| SlideControl.SlideOffset | apps/web/src/components/CoffeeScrollShowcase.tsx:285-286 | definition only: `start + k / (total - 1) * (end - start)`; its properties are `SlideOffsetEnds`, `SlideOffsetProgress` and `SlideOffsetMonotone` |
| SlideControl.AnimateToIndex | apps/web/src/components/CoffeeScrollShowcase.tsx:106-118 | definition only; its behaviour is stated by `AnimateToIndexNoop` and `AnimateToIndexMoves` |
| SlideControl.GoToSlide | apps/web/src/components/CoffeeScrollShowcase.tsx:276-293 | definition only; its behaviour is stated by `GoToSlideSpec` |
| SlideControl.OnWheel | apps/web/src/components/CoffeeScrollShowcase.tsx:342-369 | definition only; its behaviour is stated by `WheelFollowsArbiter`, `WheelIgnored`, `WheelPassthroughAtEnds`, `WheelAcceptedStep` and `ZeroDeltaStepsBack` |
| SlideControl.OnTouchStart | apps/web/src/components/CoffeeScrollShowcase.tsx:374-377 | definition only: records the touch start while pinned; the class method `HandleTouchStart` states it |
| SlideControl.TouchMovePrevents | apps/web/src/components/CoffeeScrollShowcase.tsx:379-392 | definition only: pinned and not pushing past an end; the class method `HandleTouchMove` ties `preventDefault` to it |
| SlideControl.OnTouchEnd | apps/web/src/components/CoffeeScrollShowcase.tsx:394-419 | definition only; its behaviour is stated by `TouchEndFollowsArbiter`, `TouchEndIgnored`, `ShortSwipeIgnored` and `SwipeAcceptedStep` |
| SlideControl.OnDotClick | apps/web/src/components/CoffeeScrollShowcase.tsx:441-448 | definition only; its behaviour is stated by `DotDroppedWhileLocked`, `DotOnCurrentSlideLocks` and `DotClickGoesTo` |
| SlideControl.OnPinEnter | apps/web/src/components/CoffeeScrollShowcase.tsx:310-325 | definition only; its behaviour is stated by `PinCallbacks` and `RepeatedEnterStopsTwice` |
| SlideControl.OnPinLeave | apps/web/src/components/CoffeeScrollShowcase.tsx:316-330 | definition only; its behaviour is stated by `PinCallbacks` and `LeaveKeepsLock` |
| SlideControl.Setup | apps/web/src/components/CoffeeScrollShowcase.tsx:296-339 | definition only; its behaviour is stated by `SetupWaits`, `SetupStartsAtFirstSlide` and `ZeroHeightNotDeferred` |
| SlideControl.Cleanup | apps/web/src/components/CoffeeScrollShowcase.tsx:297-437 | definition only; its behaviour is stated by `CleanupStartsEngine`, `CleanupOnce` and `CleanupKeepsRefs` |
| SlideControl.Elapse | apps/web/src/components/CoffeeScrollShowcase.tsx:366-368 | definition only: a pending release fires once its time has come; stated through `SecondWheelWithinCooldownIgnored` and `SecondWheelAfterCooldownJudged` |
| SlideControl.Step | apps/web/src/components/CoffeeScrollShowcase.tsx:342-448 | definition only: one event dispatched to its handler; `StepPreservesValid` states the invariant it keeps |
| SlideControl.Run | apps/web/src/components/CoffeeScrollShowcase.tsx:342-448 | definition only: events applied in order; `RunPreservesValid` and `IndexAlwaysASlide` state what every run keeps |
| SlideControl.Created | apps/web/src/components/CoffeeScrollShowcase.tsx:60-64 | the initial refs satisfy the controller invariant, unpinned, unlocked, without a trigger |
| SlideProperties.AnimateToIndexNoop | apps/web/src/components/CoffeeScrollShowcase.tsx:108-111 | an index outside the slides, or the current index without `force`, changes nothing |
| SlideProperties.AnimateToIndexMoves | apps/web/src/components/CoffeeScrollShowcase.tsx:110-118 | otherwise index, rendered index and store index become `index`, nothing else changes, and one transition is logged with direction +1 iff coming from -1 or moving up |
| SlideProperties.SlideOffsetEnds | apps/web/src/components/CoffeeScrollShowcase.tsx:285-286 | slide 0 maps to the region's start and the last slide to its end |
| SlideProperties.SlideOffsetProgress | apps/web/src/components/CoffeeScrollShowcase.tsx:285-286 | reading the progress back from the offset gives `k / (total - 1)` |
| SlideProperties.SlideOffsetMonotone | apps/web/src/components/CoffeeScrollShowcase.tsx:285-286 | over a region of non-negative height, later slides sit no higher and all lie inside the region |
| SlideProperties.GoToSlideSpec | apps/web/src/components/CoffeeScrollShowcase.tsx:276-293 | no trigger: no change; else the index becomes the clamped target and the scroll offset that slide's offset, lock, pin, engine and clock untouched; a move to another slide also sets the rendered index, writes it to the store and hands one transition with its direction to the animation layer, while staying on the current slide logs nothing |
| SlideProperties.WheelFollowsArbiter | apps/web/src/components/CoffeeScrollShowcase.tsx:342-369 | while pinned, every non-zero delta is handled as the lock/boundary/direction rule `Arbitrate` says: ignore, pass through, or one step taking the lock |
| SlideProperties.WheelIgnored | apps/web/src/components/CoffeeScrollShowcase.tsx:343 | unpinned, detached or locked: nothing changes and the event is not taken |
| SlideProperties.WheelPassthroughAtEnds | apps/web/src/components/CoffeeScrollShowcase.tsx:349-351 | up at slide 0 or down at the last slide: nothing changes, no `preventDefault`, no lock |
| SlideProperties.WheelAcceptedStep | apps/web/src/components/CoffeeScrollShowcase.tsx:354-368 | an accepted event moves exactly one step (down +1, otherwise -1), takes the lock and schedules release 700 ms later |
| SlideProperties.ZeroDeltaStepsBack | apps/web/src/components/CoffeeScrollShowcase.tsx:346-361 | a zero delta while pinned and unlocked steps back one slide (at slide 0 it stays, but still locks) and takes the lock for 700 ms |
| SlideProperties.SecondWheelWithinCooldownIgnored | apps/web/src/components/CoffeeScrollShowcase.tsx:357-368 | a second wheel event less than 700 ms later leaves the index where the first put it |
| SlideProperties.SecondWheelAfterCooldownJudged | apps/web/src/components/CoffeeScrollShowcase.tsx:366-368 | after the cooldown the lock is free and a second event is judged afresh |
| SlideProperties.ForwardWheelsClimb | apps/web/src/components/CoffeeScrollShowcase.tsx:359-368 | `k` forward events spaced by the cooldown climb `k` slides, stopping at the last |
| SlideProperties.BackwardWheelsDescend | apps/web/src/components/CoffeeScrollShowcase.tsx:359-368 | `k` backward events spaced by the cooldown descend `k` slides, stopping at slide 0 |
| SlideProperties.ShortSwipeIgnored | apps/web/src/components/CoffeeScrollShowcase.tsx:397-398 | touch travel under 40 px does nothing |
| SlideProperties.SwipeAcceptedStep | apps/web/src/components/CoffeeScrollShowcase.tsx:400-418 | a long enough swipe away from the ends moves one step and locks for 600 ms |
| SlideProperties.TouchEndFollowsArbiter | apps/web/src/components/CoffeeScrollShowcase.tsx:394-419 | while pinned, every swipe of at least 40 px is handled as `Arbitrate` says: a held lock ignores it, backwards at slide 0 or onwards at the last slide passes through, otherwise one step in the swipe's direction locking for 600 ms |
| SlideProperties.TouchEndIgnored | apps/web/src/components/CoffeeScrollShowcase.tsx:395 | unpinned or detached, a touch end does nothing |
| SlideProperties.MovesChangeNothing | apps/web/src/components/CoffeeScrollShowcase.tsx:379-392 | any run of touchmove events leaves the state unchanged |
| SlideProperties.SwipeJudgedFromEnds | apps/web/src/components/CoffeeScrollShowcase.tsx:374-398 | a gesture is judged on its start and end positions only, whatever moves come between |
| SlideProperties.DotDroppedWhileLocked | apps/web/src/components/CoffeeScrollShowcase.tsx:442 | a dot click while locked is dropped, not queued |
| SlideProperties.DotOnCurrentSlideLocks | apps/web/src/components/CoffeeScrollShowcase.tsx:441-448 | a click on the current dot still takes the lock for 700 ms but logs no transition |
| SlideProperties.DotClickGoesTo | apps/web/src/components/CoffeeScrollShowcase.tsx:441-448 | a click on another dot goes there in one transition, jumps the offset to it and locks for 700 ms |
| SlideProperties.PinCallbacks | apps/web/src/components/CoffeeScrollShowcase.tsx:310-330 | entering pins and logs a stop, leaving unpins and logs a start, each only when the engine exists |
| SlideProperties.RepeatedEnterStopsTwice | apps/web/src/components/CoffeeScrollShowcase.tsx:310-325 | there is no guard: two enter callbacks stop the engine twice |
| SlideProperties.CleanupStartsEngine | apps/web/src/components/CoffeeScrollShowcase.tsx:427-437 | clean-up after set-up logs a start and detaches the handlers |
| SlideProperties.CleanupOnce | apps/web/src/components/CoffeeScrollShowcase.tsx:297-437 | clean-up is registered only past set-up's early return and runs once: with no handlers attached it changes nothing, and a second clean-up changes nothing |
| SlideProperties.CleanupKeepsRefs | apps/web/src/components/CoffeeScrollShowcase.tsx:427-437 | clean-up resets no ref: index, lock, pinned flag, touch start, trigger and store keep their values |
| SlideProperties.LeaveKeepsLock | apps/web/src/components/CoffeeScrollShowcase.tsx:316-330 | leaving the pinned region neither releases nor reschedules the lock |
| SlideProperties.LockReleasedOnlyByTimer | apps/web/src/components/CoffeeScrollShowcase.tsx:357-368 | no event other than the passing of time clears a held lock or moves its release time |
| SlideProperties.NoTickKeepsLock | apps/web/src/components/CoffeeScrollShowcase.tsx:357-368 | any run of events before the clock moves leaves a held lock held with the same release time |
| SlideProperties.LockAlwaysExpires | apps/web/src/components/CoffeeScrollShowcase.tsx:366-368 | in a valid state a held lock is always free one wheel cooldown (700 ms) later: it can never stick |
| SlideProperties.SetupWaits | apps/web/src/components/CoffeeScrollShowcase.tsx:297 | set-up does nothing until images and section are ready |
| SlideProperties.SetupStartsAtFirstSlide | apps/web/src/components/CoffeeScrollShowcase.tsx:299-301 | set-up shows slide 0 with a forward transition from -1, writes 0 to the store and attaches the handlers |
| SlideProperties.ZeroHeightNotDeferred | apps/web/src/components/CoffeeScrollShowcase.tsx:296-310 | with a viewport of zero height set-up still creates the trigger, over the empty region from the section's top, and attaches the handlers; entering it pins and stops the engine |
| SlideProperties.StepPreservesValid | apps/web/src/components/CoffeeScrollShowcase.tsx:342-448 | every handler keeps the index within the slides, the lock's release pending, and the store in step |
| SlideProperties.RunPreservesValid | apps/web/src/components/CoffeeScrollShowcase.tsx:342-448 | so does every sequence of events |
| SlideProperties.IndexAlwaysASlide | apps/web/src/components/CoffeeScrollShowcase.tsx:60-64 | from creation on, whatever happens, `0 <= activeIndex < total` |
| SlideProperties.WheelScenario | apps/web/src/components/CoffeeScrollShowcase.tsx:342-369 | with the seven slides, from slide 0: down goes to 1, a second down within 700 ms is dropped, down after the cooldown goes to 2, two ups return to 0, and a further up passes through |
| SlideProperties.DotScenario | apps/web/src/components/CoffeeScrollShowcase.tsx:441-448 | from slide 2, dot 5 is one forward transition to slide 5 at 5/6 of the region, locked for 700 ms |
| ScrollStore.CoffeeScrollStore.constructor | apps/web/src/store/useCoffeeScrollStore.ts:12-15 | the store starts with index 0, progress 0, direction 0 |
| ScrollStore.CoffeeScrollStore.SetCurrentIndex | apps/web/src/store/useCoffeeScrollStore.ts:16 | only `currentIndex` changes, to the argument |
| ScrollStore.CoffeeScrollStore.SetProgress | apps/web/src/store/useCoffeeScrollStore.ts:17 | only `progress` changes, to the argument |
| ScrollStore.CoffeeScrollStore.SetDirection | apps/web/src/store/useCoffeeScrollStore.ts:18 | only `direction` changes, to the argument |
| ScrollStore.WithCurrentIndex | apps/web/src/store/useCoffeeScrollStore.ts:16 | the index becomes the argument and the other two fields are kept |
| ScrollStore.WithProgress | apps/web/src/store/useCoffeeScrollStore.ts:17 | the progress becomes the argument and the other two fields are kept |
| ScrollStore.WithDirection | apps/web/src/store/useCoffeeScrollStore.ts:18 | the direction becomes the argument and the other two fields are kept |
| ScrollStore.SettersIdempotent | apps/web/src/store/useCoffeeScrollStore.ts:16-18 | applying a setter twice with the same value equals applying it once |
| ScrollStore.SettersCommute | apps/web/src/store/useCoffeeScrollStore.ts:16-18 | setters of different fields can be applied in either order |
| JsStrings.Lower | packages/db/src/collections/coffees.ts:129 | `toLowerCase` keeps the length and lower-cases each character |
| JsStrings.ContainsIff | packages/db/src/collections/coffees.ts:129 | `includes` holds exactly when the needle occurs at some position |
| JsStrings.ContainsLower | packages/db/src/collections/coffees.ts:144 | a case-sensitive match is still a match after lower-casing both sides |
| JsStrings.Contains | packages/db/src/collections/coffees.ts:129 | definition only: `includes`; `ContainsIff` states its meaning |
| JsStrings.ParseInt | packages/db/src/collections/coffees.ts:198-199 | definition only: white space, sign, `0x` prefix and the longest digit run, `None` for `NaN`; `ScoreOfDecimal` and `ScoreOfNoDigits` state what it reads |
| JsStrings.ScoreOf | packages/db/src/collections/coffees.ts:198-199 | definition only: `parseInt(s)`, or 0 when that is `NaN`; stated by `ScoreOfDecimal` and `ScoreOfNoDigits` |
| JsStrings.ScoreOfDecimal | packages/db/src/collections/coffees.ts:198-199 | a score written as a whole number followed by a non-digit (such as `"86.5"`) counts as that number |
| JsStrings.ScoreOfNoDigits | packages/db/src/collections/coffees.ts:198-199 | a score with no leading digits counts as 0 |
| Seqs.Filter | packages/db/src/collections/coffees.ts:128 | `filter` never lengthens the list |
| Seqs.FilterShrinks | packages/db/src/collections/coffees.ts:125-173 | `filter` keeps each element at most as often as it occurs |
| Seqs.FilterMembers | packages/db/src/collections/coffees.ts:125-173 | an element is kept iff it was present and passes the test |
| Seqs.FilterIsSubseq | packages/db/src/collections/coffees.ts:125-173 | filtering only removes elements and keeps the rest in order |
| Seqs.FilterTwice | packages/db/src/collections/coffees.ts:125-173 | filtering by one test and then another is filtering once by both |
| Seqs.FilterKeepsAll | packages/db/src/collections/coffees.ts:125-173 | nothing is removed iff every element passes, and then the list is unchanged |
| Seqs.CascadeFilters | packages/db/src/collections/coffees.ts:125-173 | applying the switched-on steps in turn keeps exactly what passes them all, in order |
| Seqs.CascadeOfSeven | packages/db/src/collections/coffees.ts:125-173 | seven steps applied one after another keep what passes all seven |
| Seqs.SortBy | packages/db/src/collections/coffees.ts:205 | `sort` with a numeric comparator returns a permutation ordered by the key |
| Seqs.SortByStable | packages/db/src/collections/coffees.ts:205 | coffees with equal keys keep their original relative order |
| Seqs.SortBySorted | packages/db/src/collections/coffees.ts:205 | sorting an already ordered list changes nothing |
| Coffees.DocToCoffee | packages/db/src/collections/coffees.ts:30-84 | the product carries the document's id and is well formed: priced at exactly the three locations, each entry naming its own location, no empty defaulted text |
| Coffees.ReadBackStored | packages/db/src/collections/coffees.ts:30-84 | a well-formed product stored with every field and read back is unchanged, whatever the clock |
| Coffees.ReadIsIdempotent | packages/db/src/collections/coffees.ts:30-84 | reading, storing and reading again gives the first read |
| Coffees.UnpricedLocationDefaults | packages/db/src/collections/coffees.ts:31-59 | an unpriced location gets price 0, `out_of_stock`, empty period, `LC/CAD`, the clock's time, and terms `FOB Djibouti` (Addis Ababa) or `EXW` (Trieste, Genoa) |
| Coffees.PricingFieldDefaults | packages/db/src/collections/coffees.ts:31-59 | each pricing field falls back to its default when missing or empty and is kept otherwise |
| Coffees.ProductFieldDefaults | packages/db/src/collections/coffees.ts:71-82 | the pass-through fields (name, station, region, grade, preparation, crop year, certification, score, reference code, image URL) are copied; tasting notes, images and videos keep a stored list and are empty when missing; bag size keeps a non-empty stored value and defaults to `60 KG GrainPro`; `createdAt` and `updatedAt` keep a stored time and default to the clock's reading; `isActive` is false only when stored false; `isTopLot` true only when stored true; display order defaults to 0 |
| Coffees.ReadProductsArePriced | packages/db/src/collections/coffees.ts:31-34 | every read product has an Addis Ababa entry, so the price sorts compare its stored price or 0 |
| Coffees.Admits | packages/db/src/collections/coffees.ts:127-173 | definition only: a coffee meets each non-empty criterion; `StagesAdmit` shows it is what the seven steps test |
| Coffees.Selected | packages/db/src/collections/coffees.ts:125-173 | definition only: the admitted coffees in input order; `ApplyFilters` and `StagesSelect` prove the narrowing returns it |
| Coffees.SortKey | packages/db/src/collections/coffees.ts:183-205 | definition only: the numeric key each comparator subtracts; `SortedSelection` and `FilterCoffees` state the order it gives |
| Coffees.StagesAdmit | packages/db/src/collections/coffees.ts:127-173 | passing each of the seven given criteria is exactly the conjunction `Admits` |
| Coffees.StagesSelect | packages/db/src/collections/coffees.ts:125-173 | keeping what passes every criterion is keeping exactly the admitted coffees |
| Coffees.ApplyFilters | packages/db/src/collections/coffees.ts:125-173 | the criterion-by-criterion narrowing returns exactly the admitted coffees in their original order |
| Coffees.FilterCoffees | packages/db/src/collections/coffees.ts:117-209 | the result holds exactly the admitted coffees, each as often as in the selection, ordered by the chosen sort (display order ascending, score descending, Addis Ababa price either way), ties in input order |
| Coffees.QueryResult | packages/db/src/collections/coffees.ts:176-208 | the same facts about the sorted selection, as a lemma other proofs can use |
| Coffees.SortedSelection | packages/db/src/collections/coffees.ts:183-205 | each sort option reorders by its key: same coffees, ordered, equal keys in input order |
| Coffees.NoCriteriaKeepsAll | packages/db/src/collections/coffees.ts:127-173 | with every criterion empty the query keeps the whole list |
| Coffees.SelectionKeepsOrder | packages/db/src/collections/coffees.ts:125-173 | the query only removes coffees and keeps the rest in their original order |
| Coffees.ExactRegionMatches | packages/db/src/collections/coffees.ts:127-131 | a region containing a selected value verbatim passes the case-insensitive region filter |
| Coffees.InStockPassesLocation | packages/db/src/collections/coffees.ts:167-173 | a coffee holding a selected location not out of stock passes the location filter |
| Coffees.UpdatePayload | packages/db/src/collections/coffees.ts:253-258 | the written fields are the patch's without `id` and `createdAt`, plus `updatedAt` set to the stamp |
| Coffees.UpdateCoffee | packages/db/src/collections/coffees.ts:245-272 | fails exactly when the document is missing; otherwise only that document changes, `id` and `createdAt` are kept, patched fields take the patch's value, other fields are kept, and `updatedAt` is the stamp |
| Coffees.ToggleActiveWritesFlag | packages/db/src/collections/coffees.ts:312-317 | toggling writes only `isActive` and `updatedAt` |
| Coffees.UpdateOrderWritesPosition | packages/db/src/collections/coffees.ts:320-325 | reordering writes only `displayOrder` and `updatedAt` |
| Coffees.CountCoffees | packages/db/src/collections/coffees.ts:328-334 | `total` is the number of coffees and `active` the number of active ones, counted one by one by `ActiveCount`; hence `active <= total`, `active == total` iff all are active, `active == 0` iff none is |
| Coffees.FilterCountsActive | packages/db/src/collections/coffees.ts:332 | the length of the list filtered on `isActive` is the count of active coffees |

## Left out

- GSAP tweens in `animateToIndex`, the mesh gradient, image preloading and the JSX are decorative rendering. The model records each transition handed to them as a `(from, to, direction)` entry instead.
- Real timers, `requestAnimationFrame`, `ScrollTrigger.refresh` and the `addEventListener` plumbing are not modelled. Timers are a logical clock, and attached listeners are a `listening` flag.
- The smooth-scroll engine is a log of `Stop`/`Start` calls. `engineExists` says whether its global instance is set.
- The pinned region's pixel bounds come from the layout: `Setup` takes the section's top and the viewport height as parameters.
- The scroll trigger's own decision of when to fire its enter and leave callbacks is not modelled; the callbacks are events.
- Firestore I/O is not modelled: `getCoffees`, `getCoffeeById`, `createCoffee`, `deleteCoffee`, `updateCoffeePricing` and `updateDoc` itself. Their results are parameters. `UpdateCoffee` models the update on an in-memory map.
- UpdateCoffee: the failure message is the fixed text `No document to update`. The database's message also carries the document path.
- UpdateCoffee: the "Coffee not found after update" branch is not modelled. It cannot happen without a concurrent delete.
- UpdateCoffee: the read-back of the updated document (`getCoffeeById`) is not modelled.
- The `name_asc`, `name_desc` and `grade` sorts use `localeCompare`, a locale collation outside the program, and are not modelled.
- Prices are modelled as exact reals, not floating point.
- Scroll offsets, region bounds, wheel deltas and touch positions are JavaScript doubles in the program and exact reals in the model. SlideOffsetEnds, SlideOffsetProgress, SlideOffsetMonotone and DotScenario hold in real arithmetic; rounding of the offset is not modelled.
- Lower: only ASCII letters are case-folded; the full Unicode case mapping of `toLowerCase` is not modelled.
- JsStrings.ParseInt: integers are unbounded, so the precision loss `parseInt` has on very long digit runs is not modelled.
- Document fields that `docToCoffee` passes through unchanged (name, region, grade, score and so on) are modelled as present strings, not dynamically typed values.
- A document without a `pricing` object is modelled as an empty pricing map.
- Timestamps are integers (milliseconds); `toDate()` is the identity on them.
- DocToCoffee: one clock reading `now` stands for every `new Date()` in a single `docToCoffee` call (up to five: three pricing entries, `createdAt`, `updatedAt`), which in the program can return different milliseconds.
- Every other file of the repository is not part of this model: the other collections, mail sending, authentication, the admin and web pages, maps and tours.
