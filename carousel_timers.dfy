/** The carousel component's timer handling (src/index.tsx, lines 40-58): the
    two timer refs, the effect that re-arms the automatic advance, and the
    dot handler `setIndex`. Time itself is not modelled: a pending timer is a
    slot holding the action its callback will dispatch, and firing it is an
    operation of its own. */
module CarouselTimers {
  import opened Wrappers
  import opened Rotation
  import opened AnimationStyle

  /** A pending `setTimeout`: the action its callback dispatches, and its delay. */
  datatype Timer = Timer(action: Action, delayMs: int)

  const DefaultIntervalMs := 1000

  /** `props.duration || 1000`: an unset or zero duration means one second. */
  function Interval(duration: Option<int>): (ms: int)
    ensures duration == None || duration == Some(0) ==> ms == DefaultIntervalMs
    ensures duration.Some? && duration.value != 0 ==> ms == duration.value
  {
    OrNumber(duration, DefaultIntervalMs)
  }

  /** One mounted carousel of `n` slides. */
  class Carousel {
    /** `props.slides.length` */
    const n: int
    /** `props.duration` */
    var duration: Option<int>
    /** The reducer's current state. */
    var state: State
    /** The timer `timerId1` refers to, while its callback is still pending. */
    var timer1: Option<Timer>
    /** The timer `timerId2` refers to; nothing ever arms it. */
    var timer2: Option<Timer>
    var mounted: bool
    /** What the reducer threw, once it has. */
    var error: Option<ReducerError>
    /** The dependencies `[state.nextActive, props.duration]` the effect last ran with. */
    var effectNextActive: int
    var effectDuration: Option<int>

    /** Between events: the effect has seen the current dependencies, a pending
        timer dispatches "NEXT" or "BRING_NEXT" after the current interval, and
        the automatic advance has stopped only on a single slide. */
    ghost predicate Valid()
      reads this
    {
      n >= 1 && timer2 == None &&
      (timer1.Some? ==> timer1.value.action in {Next, BringNext} && timer1.value.delayMs == Interval(duration)) &&
      (mounted ==> error == None && InRange(n, state) &&
                   effectNextActive == state.nextActive && effectDuration == duration) &&
      (mounted && timer1 == None ==> n == 1 && state.nextActive == 0) &&
      (!mounted ==> timer1 == None)
    }

    /** Mounting: the reducer starts at its initial state and the effect arms
        the first automatic advance. */
    constructor (n: int, duration: Option<int>)
      requires n >= 1
      ensures Valid() && mounted
      ensures this.n == n && this.duration == duration && state == Initial
      ensures timer1 == Some(Timer(Next, Interval(duration)))
    {
      this.n := n;
      this.duration := duration;
      state := Initial;
      timer1 := None;
      timer2 := None;
      mounted := true;
      error := None;
      // the effect's first run: clearTimeout(undefined), then arm
      timer1 := Some(Timer(Next, Interval(duration)));
      effectNextActive, effectDuration := Initial.nextActive, duration;
    }

    /** A render is committed: when `nextActive` or `duration` differ from the
        effect's last run, that run's cleanup cancels `timerId1` and the effect
        arms a fresh "NEXT" timer; otherwise the effect does not run. */
    method Commit()
      requires n >= 1 && mounted && error == None && timer2 == None && InRange(n, state)
      requires timer1.Some? ==> timer1.value.action in {Next, BringNext}
      requires timer1.Some? && effectDuration == duration ==> timer1.value.delayMs == Interval(duration)
      requires timer1 == None && effectNextActive == state.nextActive && effectDuration == duration ==>
                 n == 1 && state.nextActive == 0
      modifies this
      ensures Valid() && mounted
      ensures state == old(state) && duration == old(duration)
      ensures timer1 == if old(effectNextActive) != state.nextActive || old(effectDuration) != duration
                        then Some(Timer(Next, Interval(duration))) else old(timer1)
    {
      if state.nextActive != effectNextActive || duration != effectDuration {
        timer1 := None;
        timer1 := Some(Timer(Next, Interval(duration)));
        effectNextActive, effectDuration := state.nextActive, duration;
      }
    }

    /** `setIndex(index)`, run when the dot for slide `index` is clicked: both
        timers are cancelled, "CUSTOM" is dispatched, and `timerId1` is armed
        with a "BRING_NEXT" timer, which the effect replaces by a "NEXT" timer
        only when `nextActive` changed. */
    method SetIndex(index: int)
      requires Valid() && mounted && 0 <= index < n
      modifies this
      ensures Valid() && mounted && duration == old(duration)
      ensures state == State(old(state.nextActive), index)
      ensures timer1 == Some(Timer(if index == old(state.nextActive) then BringNext else Next,
                                   Interval(duration)))
      ensures timer2 == None
    {
      timer1 := None;
      timer2 := None;
      state := Reduce(n, state, Custom(index)).value;
      timer1 := Some(Timer(BringNext, Interval(duration)));
      Commit();
    }

    /** The pending `timerId1` callback runs and dispatches its action. A
        reducer that throws takes the component down: it unmounts, and the
        effect's cleanup cancels `timerId1`. */
    method Fire()
      requires Valid() && mounted && timer1.Some?
      modifies this
      ensures Valid() && duration == old(duration)
      ensures match Reduce(n, old(state), old(timer1).value.action)
              case Success(s) =>
                mounted && state == s &&
                timer1 == if s.nextActive != old(state.nextActive)
                          then Some(Timer(Next, Interval(duration))) else None
              case Failure(e) =>
                !mounted && error == Some(e) && state == old(state) && timer1 == None
    {
      var action := timer1.value.action;
      timer1 := None;
      match Reduce(n, state, action)
      case Success(s) =>
        NextFixedPointIff(n, state.nextActive);
        state := s;
        Commit();
      case Failure(e) =>
        error := Some(e);
        mounted := false;
    }

    /** New props with another `duration`: the effect re-arms the automatic
        advance with the new interval when the value changed. */
    method SetDuration(d: Option<int>)
      requires Valid() && mounted
      modifies this
      ensures Valid() && mounted && duration == d && state == old(state)
      ensures timer1 == if d != old(duration) then Some(Timer(Next, Interval(d))) else old(timer1)
    {
      duration := d;
      Commit();
    }

    /** Unmounting runs the effect's cleanup, which cancels `timerId1`. */
    method Unmount()
      requires Valid() && mounted
      modifies this
      ensures Valid() && !mounted && timer1 == None && state == old(state)
      ensures error == None && duration == old(duration)
    {
      timer1 := None;
      mounted := false;
    }
  }

  /** Clicking the dot of the slide already being shown, in any state, leaves
      `nextActive` as it was, so the effect does not replace the "BRING_NEXT"
      timer; when it fires the reducer throws and the component unmounts. */
  method ClickShownDotThenWait(c: Carousel)
    requires c.Valid() && c.mounted
    modifies c
    ensures c.Valid() && !c.mounted && c.timer1 == None
    ensures c.error == Some(UnknownAction("BRING_NEXT"))
    ensures c.state == State(old(c.state.nextActive), old(c.state.nextActive))
  {
    c.SetIndex(c.state.nextActive);
    c.Fire();
  }

  /** Three faded slides advancing every second: after mounting slide 0 is
      visible, after one advance slide 1, and after clicking the third dot
      slide 2, with a fresh one-second countdown pending. */
  method NavigationScenario() returns (frames: seq<seq<Option<int>>>, pending: Option<Timer>)
    ensures frames == [[Some(1), Some(0), Some(0)], [Some(0), Some(1), Some(0)], [Some(0), Some(0), Some(1)]]
    ensures pending == Some(Timer(Next, 1000))
  {
    var fade := AnimationProps(Some("FADE"), None, None, None);
    var c := new Carousel(3, Some(1000));
    var f0 := SlideStyles(3, c.state, fade);
    c.Fire();
    var f1 := SlideStyles(3, c.state, fade);
    c.SetIndex(2);
    var f2 := SlideStyles(3, c.state, fade);
    frames := [[f0[0].opacity, f0[1].opacity, f0[2].opacity],
               [f1[0].opacity, f1[1].opacity, f1[2].opacity],
               [f2[0].opacity, f2[1].opacity, f2[2].opacity]];
    pending := c.timer1;
  }
}
