/** The style resolver `getAnimationStyle` (src/index.tsx, lines 114-156):
    the CSS properties one slide gets for the current rotation state. */
module AnimationStyle {
  import opened Wrappers
  import opened Rotation

  /** The `transition` property: `all <d>s <curve> <delay>s`, kept in whole
      milliseconds instead of the formatted seconds, or the literal "none". */
  datatype Transition = Timed(durationMs: int, timingFunction: string, delayMs: int) | NoTransition

  /** The `transform` property: `translateX(<percent>%)` or `scale(<factor>)`. */
  datatype Transform = TranslateX(percent: int) | Scale(factor: int)

  /** A property bag; `None` is a key the object does not have. */
  datatype Style = Style(opacity: Option<int>, transform: Option<Transform>, transition: Option<Transition>)

  /** The animation props of the carousel, as handed to `getAnimationStyle`. */
  datatype AnimationProps = AnimationProps(animationType: Option<string>, duration: Option<int>,
                                           timingFunction: Option<string>, animationDelay: Option<int>)

  const DefaultDurationMs := 700
  const DefaultTimingFunction := "cubic-bezier(0.1, 0.99, 0.1, 0.99)"
  const DefaultDelayMs := 100

  /** `x || default` on a number prop: `undefined` and 0 are falsy. */
  function OrNumber(x: Option<int>, default: int): (r: int)
    ensures x == None || x == Some(0) ==> r == default
    ensures x.Some? && x.value != 0 ==> r == x.value
  {
    match x
    case Some(v) => if v != 0 then v else default
    case None => default
  }

  /** `x || default` on a string prop: `undefined` and "" are falsy. */
  function OrString(x: Option<string>, default: string): (r: string)
    ensures x == None || x == Some("") ==> r == default
    ensures x.Some? && x.value != "" ==> r == x.value
  {
    match x
    case Some(v) => if v != "" then v else default
    case None => default
  }

  /** The object literal `{...base, ...over}`: every key `over` has replaces
      the same key of `base`. */
  function Spread(base: Style, over: Style): Style {
    Style(
      if over.opacity.Some? then over.opacity else base.opacity,
      if over.transform.Some? then over.transform else base.transform,
      if over.transition.Some? then over.transition else base.transition)
  }

  /** The transition every slide starts with, before the animation type's
      own properties are spread over it. */
  function ComputedTransition(duration: Option<int>, timingFunction: Option<string>,
                              animationDelay: Option<int>): (t: Transition)
    ensures t.Timed?
    ensures duration == None || duration == Some(0) ==> t.durationMs == DefaultDurationMs
    ensures timingFunction == None || timingFunction == Some("") ==> t.timingFunction == DefaultTimingFunction
    ensures animationDelay == None || animationDelay == Some(0) ==> t.delayMs == DefaultDelayMs
    ensures duration.Some? && duration.value != 0 ==> t.durationMs == duration.value
    ensures timingFunction.Some? && timingFunction.value != "" ==> t.timingFunction == timingFunction.value
    ensures animationDelay.Some? && animationDelay.value != 0 ==> t.delayMs == animationDelay.value
  {
    Timed(OrNumber(duration, DefaultDurationMs),
          OrString(timingFunction, DefaultTimingFunction),
          OrNumber(animationDelay, DefaultDelayMs))
  }

  /** 1 for the slide being shown, 0 for every other slide. */
  function Visibility(index: int, nextActiveIndex: int): int {
    if nextActiveIndex == index then 1 else 0
  }

  /** The `switch (animationType)` that picks the type's own properties. */
  function TypeStyle(index: int, nextActiveIndex: int, animationType: Option<string>): Style {
    match animationType
    case Some("FADE") =>
      Style(Some(Visibility(index, nextActiveIndex)), None, None)
    case Some("SLIDE") =>
      Style(None, Some(TranslateX((index - nextActiveIndex) * 100)), None)
    case Some("ZOOM") =>
      Style(Some(Visibility(index, nextActiveIndex)),
            Some(Scale(if nextActiveIndex == index then 1 else 2)), None)
    case Some("NO") =>
      Style(Some(Visibility(index, nextActiveIndex)), None, Some(NoTransition))
    case _ =>
      Style(None, None, None)
  }

  /** The style of slide `index`. `activeIndex` is accepted and never read. */
  function GetAnimationStyle(index: int, activeIndex: int, nextActiveIndex: int,
                             animationType: Option<string>, duration: Option<int>,
                             timingFunction: Option<string>, animationDelay: Option<int>): (r: Style)
    ensures r.opacity.Some? <==> animationType in {Some("FADE"), Some("ZOOM"), Some("NO")}
    ensures r.opacity.Some? ==> (r.opacity.value == 1 <==> index == nextActiveIndex)
    ensures r.opacity.Some? ==> (r.opacity.value == 0 <==> index != nextActiveIndex)
    ensures r.transform.Some? <==> animationType in {Some("SLIDE"), Some("ZOOM")}
    ensures animationType == Some("SLIDE") ==>
              r.transform == Some(TranslateX((index - nextActiveIndex) * 100))
    ensures animationType == Some("ZOOM") ==>
              r.transform.value.Scale? && r.transform.value.factor in {1, 2} &&
              (r.transform.value.factor == 1 <==> index == nextActiveIndex)
    ensures r.transition == Some(
              if animationType == Some("NO") then NoTransition
              else ComputedTransition(duration, timingFunction, animationDelay))
  {
    Spread(Style(None, None, Some(ComputedTransition(duration, timingFunction, animationDelay))),
           TypeStyle(index, nextActiveIndex, animationType))
  }

  /** The style does not depend on `activeIndex`. */
  lemma ActiveIndexIgnored(index: int, a1: int, a2: int, nextActiveIndex: int,
                           animationType: Option<string>, duration: Option<int>,
                           timingFunction: Option<string>, animationDelay: Option<int>)
    ensures GetAnimationStyle(index, a1, nextActiveIndex, animationType, duration, timingFunction, animationDelay)
         == GetAnimationStyle(index, a2, nextActiveIndex, animationType, duration, timingFunction, animationDelay)
  {
  }

  /** Because of `||`, an explicit 0 (or an empty curve) is the same as leaving
      the prop out. */
  lemma FalsyPropsTakeDefaults(index: int, activeIndex: int, nextActiveIndex: int,
                               animationType: Option<string>)
    ensures GetAnimationStyle(index, activeIndex, nextActiveIndex, animationType, Some(0), Some(""), Some(0))
         == GetAnimationStyle(index, activeIndex, nextActiveIndex, animationType, None, None, None)
    ensures animationType != Some("NO") ==>
              (GetAnimationStyle(index, activeIndex, nextActiveIndex, animationType, None, None, None).transition
                 == Some(Timed(700, "cubic-bezier(0.1, 0.99, 0.1, 0.99)", 100)))
  {
  }

  /** "NO" is the one type whose own `transition` is spread over the computed
      one; every other type, and an unset or unknown one, keeps it. An unset
      or unknown type adds nothing else. */
  lemma OnlyNoOverridesTransition(index: int, activeIndex: int, nextActiveIndex: int,
                                  animationType: Option<string>, duration: Option<int>,
                                  timingFunction: Option<string>, animationDelay: Option<int>)
    ensures var r := GetAnimationStyle(index, activeIndex, nextActiveIndex, animationType,
                                       duration, timingFunction, animationDelay);
            (r.transition == Some(NoTransition) <==> animationType == Some("NO")) &&
            (animationType !in {Some("FADE"), Some("SLIDE"), Some("ZOOM"), Some("NO")} ==>
               r == Style(None, None, Some(ComputedTransition(duration, timingFunction, animationDelay))))
  {
  }

  /** With an opacity-based type, exactly the slide `nextActiveIndex` is visible
      among `n` slides, and none when that index is out of range. */
  lemma VisibleSlides(n: nat, activeIndex: int, nextActiveIndex: int,
                      animationType: Option<string>, duration: Option<int>,
                      timingFunction: Option<string>, animationDelay: Option<int>)
    requires animationType in {Some("FADE"), Some("ZOOM"), Some("NO")}
    ensures (set i | 0 <= i < n && GetAnimationStyle(i, activeIndex, nextActiveIndex, animationType,
                                                     duration, timingFunction, animationDelay).opacity == Some(1))
         == if 0 <= nextActiveIndex < n then {nextActiveIndex} else {}
  {
  }

  /** With "SLIDE", the slide being shown sits at offset 0, earlier slides to
      its left, later ones to its right, and neighbours one full width apart. */
  lemma SlideLayout(index: int, activeIndex: int, nextActiveIndex: int, duration: Option<int>,
                    timingFunction: Option<string>, animationDelay: Option<int>)
    ensures var p := GetAnimationStyle(index, activeIndex, nextActiveIndex, Some("SLIDE"),
                                       duration, timingFunction, animationDelay).transform.value.percent;
            var q := GetAnimationStyle(index + 1, activeIndex, nextActiveIndex, Some("SLIDE"),
                                       duration, timingFunction, animationDelay).transform.value.percent;
            (p == 0 <==> index == nextActiveIndex) &&
            (p < 0 <==> index < nextActiveIndex) &&
            q == p + 100
  {
  }

  /** The styles of the `n` slide layers for the rotation state `s`: with an
      opacity-based type only the layer of `nextActive` is visible, with
      "SLIDE" every layer sits its distance from `nextActive` away, and every
      layer carries the same transition. */
  function SlideStyles(n: nat, s: State, p: AnimationProps): (r: seq<Style>)
    ensures |r| == n
    ensures p.animationType in {Some("FADE"), Some("ZOOM"), Some("NO")} ==>
              forall i :: 0 <= i < n ==> r[i].opacity == Some(if i == s.nextActive then 1 else 0)
    ensures p.animationType !in {Some("FADE"), Some("ZOOM"), Some("NO")} ==>
              forall i :: 0 <= i < n ==> r[i].opacity == None
    ensures p.animationType in {Some("FADE"), Some("ZOOM"), Some("NO")} && InRange(n, s) ==>
              (set i | 0 <= i < n && r[i].opacity == Some(1)) == {s.nextActive}
    ensures p.animationType == Some("SLIDE") ==>
              forall i :: 0 <= i < n ==> r[i].transform == Some(TranslateX((i - s.nextActive) * 100))
    ensures p.animationType == Some("SLIDE") && InRange(n, s) ==>
              r[s.nextActive].transform == Some(TranslateX(0))
    ensures p.animationType == Some("ZOOM") ==>
              forall i :: 0 <= i < n ==> r[i].transform == Some(Scale(if i == s.nextActive then 1 else 2))
    ensures p.animationType !in {Some("SLIDE"), Some("ZOOM")} ==>
              forall i :: 0 <= i < n ==> r[i].transform == None
    ensures forall i :: 0 <= i < n ==>
              r[i].transition == Some(if p.animationType == Some("NO") then NoTransition
                                      else ComputedTransition(p.duration, p.timingFunction, p.animationDelay))
  {
    var r := seq(n, i => GetAnimationStyle(i, s.active, s.nextActive, p.animationType,
                                           p.duration, p.timingFunction, p.animationDelay));
    if p.animationType in {Some("FADE"), Some("ZOOM"), Some("NO")} then
      VisibleSlides(n, s.active, s.nextActive, p.animationType, p.duration, p.timingFunction, p.animationDelay);
      r
    else
      r
  }
}
