# SafeTimer and Slide, modelled in Dafny

This project models three small parts of a TypeScript slideshow:

- `SafeTimer`: a single-shot delayed callback that can be paused, resumed and cancelled. Every arming takes a new `generation` number. The scheduled closure captures that number. When the closure fires, it does nothing unless the number is still current and a callback is stored.
- `Slide`: a validated factory plus index navigation over a non-empty list of slide elements. After `show`, exactly one slide carries the `active` class.
- `Result`: the `ok`/`value` | `!ok`/`error` tagged union that `Slide.create` returns.

The project has seven modules:

- `Options`: `Option`, which stands for the source's nullable references.
- `Numbers`: the integer `Min` and `Max` that `Math.min` and `Math.max` become, shared by both components.
- `Results` (`result.dfy`): the `Result` datatype. Its `ok` constant is the discriminant.
- `TimerSpec` (`timer_spec.dfy`): the timer's five fields as a value `TimerState`, with one pure transition function per operation. A scheduled `setTimeout` is a `Pending` record holding the captured generation and the delay. `Date.now()` becomes an explicit `now` argument. This module also has the lemmas about whole sequences of calls and firings (`Event`, `Step`, `After`).
- `SafeTimers` (`safe_timer.dfy`): the class `SafeTimer`. It has the same five fields, updated in place. Each method is proved to perform exactly its `TimerSpec` transition.
- `SlideSpec` (`slide_spec.dfy`): the guard chain of `create`, clamping, where `next` and `prev` go, and counting of active flags.
- `Slides` (`slide.dfy`): the class `Slide`. Each element is an opaque value of type `E`. The element's `active` class is one entry of an `array<bool>`, and `show` rewrites that array in place with a loop.

The model follows the code as written:

- `show` clamps the index into range (`Math.min(Math.max(index, 0), n - 1)`). It does not wrap it modulo `n`.
- `prev` never wraps backwards. Its `index >= 0` test always holds, so the other branch, which would show the last slide, is dead code. `Slides.Slide.Prev` keeps that branch as a bare `assert false`, which proves it unreachable. A call placed after that assertion could only be checked from a contradiction, so the branch holds no `show` call.
- `next` wraps to 0, but only from the last slide.
- `pause` does not bump `generation`. What stops a paused firing is `clearTimeout`, not the generation check. `TimerSpec.PauseLeavesTagLive` states this: a firing with the current tag that was delivered after `pause` would still invoke the callback.
- `Slide` never uses `SafeTimer`. No autoplay, hold gesture or media timing exists in `src/Slide.ts`, so none is modelled.

## Model

| member | source | states |
|---|---|---|
| `Results.MakeOk` | src/result.ts:2-4 | `Result.ok(v)` has `ok` true and `value == v` |
| `Results.MakeErr` | src/result.ts:6-8 | `Result.err(e)` has `ok` false and `error == e` |
| `Results.OkDiscriminates` | src/result.ts:11-14 | every result is exactly one of the two variants, and `ok` tells which |
| `Results.VariantsDisjoint` | src/result.ts:2-8 | `ok(v)` and `err(e)` never coincide; their `ok` tags differ |
| `TimerSpec.Cancel` | src/SafeTimer.ts:51-59 | generation strictly grows; no firing pending, remaining 0, callback cleared |
| `TimerSpec.Start` | src/SafeTimer.ts:18-23 | a new, larger generation; start time `now`; a firing scheduled after `remaining` under exactly that generation |
| `TimerSpec.Run` | src/SafeTimer.ts:9-16 | afterwards `callback == fn`, `remaining == delay`, a live firing under a generation larger than before; every earlier tag is stale |
| `TimerSpec.Pause` | src/SafeTimer.ts:36-44 | no-op without a pending firing; otherwise clears it, keeps callback and generation, and leaves `remaining - elapsed` when that is non-negative, else 0 (so `remaining >= 0`) |
| `TimerSpec.Resume` | src/SafeTimer.ts:46-49 | no-op when a firing is pending, `remaining <= 0` or no callback; otherwise a live firing for the same `remaining` and callback under a larger generation |
| `TimerSpec.Fire` | src/SafeTimer.ts:23-33 | invokes iff the tag is current and a callback is stored; a stale firing changes nothing; a live one clears timer, callback and remaining and invokes the saved callback; the same tag is then inert |
| `TimerSpec.PauseIdempotent` | src/SafeTimer.ts:36-44 | a second `pause` changes nothing |
| `TimerSpec.PauseResumeKeepsRemaining` | src/SafeTimer.ts:36-49 | run for `d`, pause after `e < d`, resume: the new firing is due after `d - e` (after `d` when `e == 0`), with the same callback |
| `TimerSpec.ResumeWhenDueIsInert` | src/SafeTimer.ts:42-48 | pausing after the whole delay has elapsed leaves `remaining == 0`; `resume` then does nothing and the callback stays stored |
| `TimerSpec.PauseLeavesTagLive` | src/SafeTimer.ts:24-44 | after `pause`, a firing with the current tag would still invoke: only `clearTimeout` prevents it |
| `TimerSpec.GenerationNeverDecreases` | src/SafeTimer.ts:10-19 | across any sequence of calls and firings, `generation` never decreases |
| `TimerSpec.PendingTagIsCurrent` | src/SafeTimer.ts:19-23 | every transition keeps the pending firing tagged with the current generation |
| `TimerSpec.StaleFiringStaysInert` | src/SafeTimer.ts:19-24 | a firing with a tag older than the generation stays inert, whatever happens afterwards |
| `TimerSpec.CancelledFiringInert` | src/SafeTimer.ts:51-59 | any firing scheduled before a `cancel` is inert for ever after, even after new runs |
| `TimerSpec.AtMostOncePerRun` | src/SafeTimer.ts:23-33 | invocations plus the callback still stored never exceed runs plus the callback stored at the start |
| `TimerSpec.InvocationsBoundedByRuns` | src/SafeTimer.ts:9-33 | from a fresh timer, callbacks are invoked at most once per `run` |
| `SafeTimers.SafeTimer.constructor` | src/SafeTimer.ts:2-7 | the field initialisers: no timer, generation 0, remaining 0, start 0, no callback |
| `SafeTimers.SafeTimer.Run` | src/SafeTimer.ts:9-16 | the fields afterwards are exactly `TimerSpec.Run` of the fields before |
| `SafeTimers.SafeTimer.Start` | src/SafeTimer.ts:18-23 | the fields afterwards are exactly `TimerSpec.Start` of the fields before |
| `SafeTimers.SafeTimer.Fire` | src/SafeTimer.ts:23-33 | state and invoked callback are exactly `TimerSpec.Fire`; an invocation runs the old callback and leaves none stored |
| `SafeTimers.SafeTimer.Pause` | src/SafeTimer.ts:36-44 | the fields afterwards are exactly `TimerSpec.Pause` of the fields before |
| `SafeTimers.SafeTimer.Resume` | src/SafeTimer.ts:46-49 | the fields afterwards are exactly `TimerSpec.Resume` of the fields before |
| `SafeTimers.SafeTimer.Cancel` | src/SafeTimer.ts:51-59 | the fields afterwards are exactly `TimerSpec.Cancel` of the fields before |
| `SlideSpec.CreateFailure` | src/Slide.ts:38-45 | the first failing guard, in the order: slides missing, slides empty, container missing, controls missing; none exactly when all are present and the list is non-empty |
| `SlideSpec.Clamp` | src/Slide.ts:60 | the result is always in range; an index in range is kept, one below becomes 0, one above becomes `n - 1` |
| `SlideSpec.NextIndex` | src/Slide.ts:72-78 | in range; `index + 1` before the last slide, 0 from the last |
| `SlideSpec.PrevIndex` | src/Slide.ts:65-71 | in range; `index - 1` after the first slide, 0 stays 0 (no backward wrap) |
| `SlideSpec.SingleSlideStays` | src/Slide.ts:60-78 | with one slide, `next` and `prev` both leave the index at 0 |
| `SlideSpec.PrevUndoesNext` | src/Slide.ts:65-78 | before the last slide, `prev` after `next` returns to the same index |
| `SlideSpec.NextUndoesPrev` | src/Slide.ts:65-78 | after the first slide, `next` after `prev` returns to the same index |
| `SlideSpec.NextTimesAdd` | src/Slide.ts:72-78 | `k` steps of `next` and then `m` more are `k + m` steps |
| `SlideSpec.NextTimesForward` | src/Slide.ts:72-78 | short of the last slide, `k` steps of `next` move exactly `k` forward |
| `SlideSpec.NextTimesCycle` | src/Slide.ts:72-78 | `next` is a rotation: `n` steps from any slide return to it |
| `SlideSpec.PrevTimesSaturates` | src/Slide.ts:65-71 | `k` steps of `prev` land at `max(index - k, 0)` |
| `SlideSpec.ExactlyOneActive` | src/Slide.ts:59-64 | when only the slide at `index` is active, the number of active slides is exactly one |
| `Slides.Slide.constructor` | src/Slide.ts:10-30 | stores container, slides, controls and time, and starts at index 0 with `slide == slides[0]` |
| `Slides.Slide.Create` | src/Slide.ts:32-54 | an error carrying exactly the message of the first failing guard; otherwise ok with a new Slide at index 0, `slide == slides[0]`, that slide the only active one |
| `Slides.Slide.Hide` | src/Slide.ts:55-57 | clears one slide's `active` flag and leaves the others alone |
| `Slides.Slide.Show` | src/Slide.ts:59-64 | `index == Clamp(i, n)`, `slide == slides[index]`, that slide the only active one, and exactly one slide active |
| `Slides.Slide.Prev` | src/Slide.ts:65-71 | the index becomes `PrevIndex` of the old index, with only that slide active; the negative-index branch is proved unreachable |
| `Slides.Slide.Next` | src/Slide.ts:72-78 | the index becomes `NextIndex` of the old index, with only that slide active |
| `Slides.Slide.Init` | src/Slide.ts:88-91 | shows the current slide: index unchanged, only that slide active |

## Left out

- `window.setTimeout`, `clearTimeout` and `Date.now()` are platform calls. Time is a natural-number argument. A scheduled timer is the `Pending` record. The platform delivering a firing is the `Fire` call, and any tag may be delivered, stale or not. Real scheduling, the event loop and timer ordering are not modelled.
- The callback's own effects are opaque. The model records only which callback was invoked. Re-entrant calls made from inside the callback are therefore not modelled.
- Browsers return positive timer handles, so a handle is always truthy. The model represents a handle only by whether a firing is pending.
- `SafeTimers.SafeTimer.Fire`: the firing closure reads no clock, so it takes only the captured generation and no `now`.
- `Slide.addControls` (src/Slide.ts:80-87) is left out. It creates buttons and wires `pointerup` listeners, which is DOM and event plumbing. `Init` models only the `show(index)` call.
- Elements and `classList` are not modelled as such. Each element is an opaque value of type `E`, and its `active` class is one entry of an array of booleans. Two positions holding the same element are not tied together.
- `Slides.Slide.constructor`: the constructor throws on a non-array or an empty list. The model makes the non-empty list a precondition instead: `create`, the only caller, rejects empty input first, and the list type excludes non-arrays.
- The slides list is treated as immutable. The source keeps the caller's array by reference (src/Slide.ts:24), but the model stores a `seq`, so a host that changes that array later is not modelled. The only caller, src/main.ts:10, passes a fresh copy made with `Array.from`.
- The initial `active` classes of the elements before `create` are not modelled, because `init` rewrites every flag through `show`.
- The `try`/`catch` in `create` (src/Slide.ts:51-53) is unreachable once the guards pass, so it is not modelled.
- `container`, `controls` and `time` are stored but play no part in navigation.
- src/main.ts is host glue: DOM lookups, and throwing on an error result. It is not part of this model.
- JavaScript numbers are floating point. Delays, times and indices are modelled as mathematical integers. Fractional and non-finite delays are not modelled.
