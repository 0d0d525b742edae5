# Animated carousel: rotation state machine, style resolver and timers

A Dafny model of the core of `react-animated-carousel` in the version whose
component is `src/index.tsx`: an auto-advancing slideshow that shows one
slide at a time and moves to the next one after a fixed interval, or to the
slide whose navigation dot was clicked.

The model has three parts, each a module:

- `Rotation` (`rotation.dfy`): the reducer given to `React.useReducer`. The
  state is `State(active, nextActive)`, starting at `State(-1, 0)`. A
  "NEXT" step moves `active` to `nextActive` and advances `nextActive` by
  one, wrapping at the slide count `n` with JavaScript's truncating `%`
  (`JsRem`). A "CUSTOM" step moves `active` to `nextActive` and stores the
  given index unchecked. Every other action type throws; this is a
  `Failure(UnknownAction(type))` result, where the type is the model's own
  record of what was dispatched. `Decode` maps an action object's
  `type` string to the `Action` datatype, so "BRING_NEXT" is one of the
  rejected types. `Run` dispatches a sequence of actions, ending at the first
  throw.
- `AnimationStyle` (`animation_style.dfy`): `getAnimationStyle`, a pure
  function from a slide index, the state's indices, the animation type and
  three timing props to a property bag with optional `opacity`, `transform`
  and `transition`. The transition is kept as whole milliseconds plus the
  curve, or `none`. The object literal `{transition, ...style}` is `Spread`:
  a key of the type's own style replaces the computed transition, which is
  how "NO" disables it.
- `CarouselTimers` (`carousel_timers.dfy`): the component's mutable part as
  the class `Carousel`. It holds the reducer state, the `duration` prop, the
  two timer refs as slots holding the action a pending callback will
  dispatch, whether the component is mounted, and the dependencies the
  effect last ran with. Its methods are mounting (the constructor), a
  committed render running the effect (`Commit`), a dot click (`SetIndex`),
  the pending timer firing (`Fire`), a new `duration` prop (`SetDuration`) and
  unmounting. `Valid()` says that the effect has seen the current
  dependencies, that `timerId2` is never armed, that a pending timer fires
  after `props.duration || 1000` ms, and that the automatic advance is
  stopped only when there is one slide.

What the code does and the model proves:

- "BRING_NEXT" is not handled by this reducer. `setIndex` arms a timer that
  dispatches it, and the effect replaces that timer only when `nextActive`
  or `duration` changed. Clicking the dot of the slide already shown therefore leaves the
  "BRING_NEXT" timer pending, and when it fires the reducer throws
  (`ClickShownDotThenWait`, `Carousel.SetIndex`, `Carousel.Fire`).
- "NO" keeps the opacity of "FADE" and sets `transition: none`; an unset or
  unknown type yields only the computed transition, with no opacity.
- The slide styled as current is `nextActive`; `activeIndex` is never read.
- With one slide, the first "NEXT" leaves `nextActive` at 0, so the effect
  does not re-arm and no further automatic advance is pending.

## Model

| member | source | states |
|---|---|---|
| `Rotation.Decode` | src/index.tsx:21-35 | the switch reads the action's `type` string: "NEXT" and only "NEXT" yields `Next`, "CUSTOM" and only "CUSTOM" yields a `Custom` action carrying the index, any other string is an unknown type, and the action's type name is the string |
| `Rotation.JsRem` | src/index.tsx:26 | JavaScript's `%`: the result is the remainder of the quotient truncated toward zero, lies in `[0, n)` for a non-negative operand and in `(-n, 0]` for a negative one |
| `Rotation.Reduce` | src/index.tsx:21-36 | a step fails exactly for action types other than "NEXT" and "CUSTOM" (the failure records the dispatched type); otherwise `active` becomes the old `nextActive`; "NEXT" puts `nextActive` at JavaScript's `(nextActive + 1) % n`, which lies inside `[0, n)` when the old one is at least -1; "CUSTOM(i)" sets `nextActive` to exactly `i` with no range check |
| `Rotation.Run` | src/index.tsx:20-38 | dispatching a sequence of actions throws if and only if one of them has an unknown type |
| `Rotation.OnlyNextAndCustomAreHandled` | src/index.tsx:22-34 | for every type string, the reducer throws if and only if the type is neither "NEXT" nor "CUSTOM"; in particular "BRING_NEXT" throws |
| `Rotation.TicksFrom` | src/index.tsx:23-27 | from a state whose `nextActive` is a slide, `k` advances give `nextActive = (nextActive + k) mod n` and `active = (nextActive + k - 1) mod n` for `k >= 1` |
| `Rotation.TicksFromInitial` | src/index.tsx:23-37 | from the initial state, `k` advances give `nextActive = k mod n`, and `active = (k - 1) mod n` once `k >= 1` |
| `Rotation.TicksCycle` | src/index.tsx:23-37 | advances visit slides 0 to n - 1 in order, wrap to 0 after n steps, and after the first step the state repeats with period n |
| `Rotation.TicksKeepLinked` | src/index.tsx:23-37 | while only automatic advances happen, `nextActive` is the slide after `active` |
| `Rotation.CustomLinkedIff` | src/index.tsx:28-32 | after "CUSTOM(i)", `nextActive` follows `active` if and only if `i` is the slide an advance would have chosen |
| `Rotation.NextFixedPointIff` | src/index.tsx:26 | an advance leaves `nextActive` unchanged if and only if there is one slide and `nextActive` is 0 |
| `Rotation.RunKeepsRange` | src/index.tsx:21-37 | any run of "NEXT" and in-range "CUSTOM" actions from an in-range state that does not throw ends in range: `active` in `[-1, n)`, `nextActive` in `[0, n)` |
| `AnimationStyle.ComputedTransition` | src/index.tsx:152-153 | the transition uses the given duration, curve and delay when truthy, and 700 ms, the fixed cubic-bezier curve and 100 ms when unset or falsy (0 or the empty string) |
| `AnimationStyle.GetAnimationStyle` | src/index.tsx:114-156 | opacity is present exactly for FADE, ZOOM and NO and is 1 if and only if the slide is `nextActiveIndex`, else 0; transform is present exactly for SLIDE and ZOOM; SLIDE translates by `(index - nextActiveIndex) * 100` percent; ZOOM scales by 1 for the shown slide and 2 otherwise; the transition is "none" for NO and the computed one otherwise |
| `AnimationStyle.ActiveIndexIgnored` | src/index.tsx:114-122 | the result does not depend on `activeIndex` |
| `AnimationStyle.FalsyPropsTakeDefaults` | src/index.tsx:152-153 | an explicit 0 duration or delay, or an empty curve, gives the same style as leaving them out: 700 ms, the fixed curve, 100 ms |
| `AnimationStyle.OnlyNoOverridesTransition` | src/index.tsx:141-155 | the transition is "none" if and only if the type is "NO"; an unset or unknown type yields only the computed transition |
| `AnimationStyle.VisibleSlides` | src/index.tsx:125-146 | with FADE, ZOOM or NO, the set of slides with opacity 1 among `n` is exactly `{nextActiveIndex}` when it is a slide index, and empty otherwise |
| `AnimationStyle.SlideLayout` | src/index.tsx:130-133 | with SLIDE, the shown slide is at offset 0, a slide before it has a negative offset, and neighbouring slides are 100 percent apart |
| `AnimationStyle.SlideStyles` | src/index.tsx:62-76 | one layer per slide for a rotation state: with FADE, ZOOM or NO a layer has opacity 1 exactly when it is `nextActive` and 0 otherwise, so exactly one layer is visible when the state is in range; other types set no opacity; with SLIDE layer `i` is offset `(i - nextActive) * 100` percent, the `nextActive` layer at 0; with ZOOM layer `i` is scaled by 1 at `nextActive` and 2 elsewhere; other types set no transform; every layer carries the same transition |
| `CarouselTimers.Interval` | src/index.tsx:45-47 | a timer waits `props.duration` ms, or 1000 ms when it is unset or 0 |
| `CarouselTimers.Carousel.constructor` | src/index.tsx:20-49 | mounting starts at `State(-1, 0)` with a "NEXT" timer pending and nothing in `timerId2` |
| `CarouselTimers.Carousel.Commit` | src/index.tsx:43-49 | the effect runs only when `nextActive` or `duration` changed since its last run; it then cancels `timerId1` and arms a fresh "NEXT" timer, and otherwise leaves the pending timer alone |
| `CarouselTimers.Carousel.SetIndex` | src/index.tsx:51-58 | a dot click sets `nextActive` to the clicked slide and `active` to the old `nextActive`, cancels `timerId2`, and leaves a "NEXT" timer pending when `nextActive` changed, or a "BRING_NEXT" timer when it did not |
| `CarouselTimers.Carousel.Fire` | src/index.tsx:43-58 | the pending callback dispatches its action; on success the state is the reducer's result and a new "NEXT" timer is pending if `nextActive` moved; on a throw the component unmounts with the error and no timer pending |
| `CarouselTimers.Carousel.SetDuration` | src/index.tsx:43-49 | a changed `duration` prop re-arms "NEXT" with the new interval; an unchanged one keeps the pending timer |
| `CarouselTimers.Carousel.Unmount` | src/index.tsx:48 | unmounting cancels `timerId1`, keeps the state and the `duration` prop, and records no error (unlike a reducer throw in `Fire`) |
| `CarouselTimers.ClickShownDotThenWait` | src/index.tsx:51-58 | from any mounted state, clicking the dot of the shown slide and then letting the pending timer fire makes the reducer throw on "BRING_NEXT": the component unmounts with that error, both indices at the old `nextActive` and no timer pending |
| `CarouselTimers.NavigationScenario` | src/index.tsx:43-90 | three faded slides: slide 0 is visible at mount, slide 1 after one advance, slide 2 after clicking its dot, with a fresh one-second "NEXT" countdown pending |

## Left out

- Rendering: the JSX tree, the dots' `className`, the static `styles` table and what CSS does with the computed properties (src/index.tsx:60-112); only the per-slide style values are modelled (`SlideStyles`).
- Time: `setTimeout` and `clearTimeout` are pending-timer slots; how long a timer waits is recorded, not simulated. Which of several events happens first is the caller's choice of method.
- React scheduling: a dispatch, the re-render and the effect that follows are one step (`SetIndex`, `Fire`); a timer firing between a render and its effect is not modelled. A throwing reducer is modelled as the component unmounting with that error.
- The transition's text: `duration / 1000` as a floating-point number of seconds and the formatted string; the model keeps whole milliseconds.
- JavaScript numbers: indices and durations are unbounded integers; fractional values, `NaN` (also falsy for `||`) and loss of precision above 2^53 are not modelled.
- The slide content and the unused `chachedSlides` prop; the slide count is fixed for the life of a `Carousel`, so a `slides` prop of another length is not modelled.
- An empty slide list: `% 0` gives `NaN` in JavaScript, so every member that reduces modulo the slide count (the `Rotation` functions and lemmas, `Carousel`) requires at least one slide.
- The thrown `Error` carries no message (src/index.tsx:34); `UnknownAction(name)` records the dispatched type for the proofs only.
- `Rotation.Reduce`: "CUSTOM" without an `index` (which would store `undefined`) is not modelled; the component always passes one.
- `CarouselTimers.Carousel.SetIndex`: requires the index of an existing slide, as the dots pass; the reducer itself (`Rotation.Reduce`) takes any index.
