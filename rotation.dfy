/** The rotation state machine: the reducer handed to `React.useReducer`
    (src/index.tsx, lines 20-38), and runs of it over sequences of actions. */
module Rotation {
  import opened Wrappers

  /** `{active, nextActive}`: the slide shown last and the slide being shown. */
  datatype State = State(active: int, nextActive: int)

  /** A `type` string the reducer's switch has no case for. */
  type UnknownName = s: string | s != "NEXT" && s != "CUSTOM" witness "BRING_NEXT"

  /** The actions the reducer switches on. `Other(name)` is any action whose
      `type` is neither "NEXT" nor "CUSTOM", such as the timer's "BRING_NEXT". */
  datatype Action = Next | Custom(index: int) | Other(name: UnknownName)

  /** A throw from the reducer's `default` branch. The thrown `Error` has no
      message; `name` only records which type reached `default`. */
  datatype ReducerError = UnknownAction(name: string)

  /** The reducer's initial state. */
  const Initial := State(-1, 0)

  /** The action dispatched by the timer that `setIndex` arms. */
  const BringNext := Other("BRING_NEXT")

  /** The `type` string of an action object. */
  function TypeName(a: Action): string {
    match a
    case Next => "NEXT"
    case Custom(_) => "CUSTOM"
    case Other(name) => name
  }

  /** Reads an action object `{type: kind, index}` as the reducer's switch does. */
  function Decode(kind: string, index: int): (a: Action)
    ensures TypeName(a) == kind
    ensures a.Next? <==> kind == "NEXT"
    ensures a.Custom? <==> kind == "CUSTOM"
    ensures a.Custom? ==> a.index == index
  {
    if kind == "NEXT" then Next
    else if kind == "CUSTOM" then Custom(index)
    else Other(kind)
  }

  /** JavaScript's integer quotient `Math.trunc(a / n)`: rounds toward zero. */
  function JsQuot(a: int, n: int): int
    requires n >= 1
  {
    if a >= 0 then a / n else -((-a) / n)
  }

  /** JavaScript's `a % n` on integers: the remainder of the quotient that
      truncates toward zero, so it takes the sign of `a` (Dafny's `%` is Euclidean). */
  function JsRem(a: int, n: int): (r: int)
    requires n >= 1
    ensures a == JsQuot(a, n) * n + r
    ensures a >= 0 ==> 0 <= r < n
    ensures a < 0 ==> -n < r <= 0
  {
    if a >= 0 then a % n else -((-a) % n)
  }

  /** One reducer step on a carousel of `n` slides. */
  function Reduce(n: int, s: State, a: Action): (r: Result<State, ReducerError>)
    requires n >= 1
    ensures r.Failure? <==> a.Other?
    ensures a.Other? ==> r.error == UnknownAction(a.name)
    ensures r.Success? ==> r.value.active == s.nextActive
    ensures a.Next? && s.nextActive >= -1 ==>
              0 <= r.value.nextActive < n && r.value.nextActive == (s.nextActive + 1) % n
    ensures a.Next? && s.nextActive < -1 ==> -n < r.value.nextActive <= 0
    ensures a.Next? ==> r.value.nextActive == JsRem(s.nextActive + 1, n)
    ensures a.Custom? ==> r.value.nextActive == a.index
  {
    match a
    case Next => Success(State(s.nextActive, JsRem(s.nextActive + 1, n)))
    case Custom(i) => Success(State(s.nextActive, i))
    case Other(name) => Failure(UnknownAction(name))
  }

  /** Dispatches `actions` in order; the first throw ends the run. */
  function Run(n: int, s: State, actions: seq<Action>): (r: Result<State, ReducerError>)
    requires n >= 1
    ensures r.Failure? <==> exists k :: 0 <= k < |actions| && actions[k].Other?
    decreases |actions|
  {
    if actions == [] then Success(s)
    else
      match Reduce(n, s, actions[0])
      case Failure(e) => Failure(e)
      case Success(s') =>
        assert forall k :: 0 <= k < |actions| - 1 ==> actions[1..][k] == actions[k + 1];
        Run(n, s', actions[1..])
  }

  /** `k` automatic advances in a row. */
  function Ticks(k: nat): (ts: seq<Action>)
    ensures |ts| == k
    ensures forall j :: 0 <= j < k ==> ts[j] == Next
  {
    seq(k, _ => Next)
  }

  /** Every slide index is a valid one: `active` may still be the initial -1. */
  predicate InRange(n: int, s: State) {
    -1 <= s.active < n && 0 <= s.nextActive < n
  }

  /** The pairing an automatic advance sets up: `nextActive` follows `active`. */
  predicate Linked(n: int, s: State)
    requires n >= 1
  {
    s.nextActive == JsRem(s.active + 1, n)
  }

  /** Only "NEXT" and "CUSTOM" are handled; every other type string,
      "BRING_NEXT" among them, throws. */
  lemma OnlyNextAndCustomAreHandled(n: int, s: State, kind: string, index: int)
    requires n >= 1
    ensures Reduce(n, s, Decode(kind, index)).Failure? <==> kind != "NEXT" && kind != "CUSTOM"
    ensures Reduce(n, s, BringNext) == Failure(UnknownAction("BRING_NEXT"))
  {
  }

  /** Euclidean division has one remainder: any `q * n + r` with `r` in
      `[0, n)` gives `r`. */
  lemma ModUnique(a: int, q: int, r: int, n: int)
    requires n >= 1 && 0 <= r < n && a == q * n + r
    ensures a % n == r
  {
    var d := q - a / n;
    assert d * n == q * n - (a / n) * n;
    if d >= 1 {
      MulAtLeast(d, n);
      assert false;
    } else if d <= -1 {
      MulAtLeast(-d, n);
      assert false;
    }
  }

  /** A positive multiple of `n` is at least `n`. */
  lemma {:induction false} MulAtLeast(d: int, n: int)
    requires d >= 1 && n >= 1
    ensures d * n >= n
  {
    if d > 1 {
      MulAtLeast(d - 1, n);
      assert d * n == (d - 1) * n + n;
    }
  }

  /** Adding a whole number of laps does not change a remainder. */
  lemma {:induction false} ModAddLaps(m: nat, y: int, n: int)
    requires n >= 1
    ensures (m * n + y) % n == y % n
  {
    assert m * n + y == (m + y / n) * n + y % n;
    ModUnique(m * n + y, m + y / n, y % n, n);
  }

  /** Reducing before adding gives the same remainder as reducing after. */
  lemma ModShift(x: nat, k: int, n: int)
    requires n >= 1
    ensures (x % n + k) % n == (x + k) % n
  {
    ModAddLaps(x / n, x % n + k, n);
    assert x + k == (x / n) * n + (x % n + k);
  }

  /** The first of `k + 1` advances is a "NEXT" step, the rest are `k` advances. */
  lemma TicksUnfold(n: int, s: State, k: nat)
    requires n >= 1
    ensures Run(n, s, Ticks(k + 1)) == Run(n, Reduce(n, s, Next).value, Ticks(k))
  {
    assert Ticks(k + 1)[0] == Next;
    assert Ticks(k + 1)[1..] == Ticks(k);
  }

  /** `k` advances from a settled state move `nextActive` on by `k` slides,
      wrapping around after the last one. */
  lemma {:induction false} TicksFrom(n: int, s: State, k: nat)
    requires n >= 1 && 0 <= s.nextActive < n
    ensures Run(n, s, Ticks(k)) ==
      Success(State(if k == 0 then s.active else (s.nextActive + k - 1) % n, (s.nextActive + k) % n))
    decreases k
  {
    var x := s.nextActive;
    if k == 0 {
      assert Ticks(0) == [];
      ModUnique(x, 0, x, n);
    } else if k == 1 {
      assert Run(n, s, Ticks(1)) == Success(State(x, (x + 1) % n)) by {
        TicksUnfold(n, s, 0);
        assert Ticks(0) == [];
      }
      ModUnique(x, 0, x, n);
    } else {
      var s1 := State(x, (x + 1) % n);
      assert Run(n, s, Ticks(k)) == Success(State((x + k - 1) % n, (x + k) % n)) by {
        TicksUnfold(n, s, k - 1);
        TicksFrom(n, s1, k - 1);
        ModShift(x + 1, k - 1, n);
        ModShift(x + 1, k - 2, n);
      }
    }
  }

  /** From the initial state, `k` advances show slide `k mod n` next and,
      once at least one advance happened, slide `(k - 1) mod n` as the last. */
  lemma TicksFromInitial(n: int, k: nat)
    requires n >= 1
    ensures Run(n, Initial, Ticks(k)) ==
      Success(State(if k == 0 then -1 else (k - 1) % n, k % n))
  {
    TicksFrom(n, Initial, k);
  }

  /** Advances visit the slides 0, 1, ..., n - 1 in order, then start over at 0:
      once the first advance has happened, the state repeats every `n` advances. */
  lemma TicksCycle(n: int, k: nat)
    requires n >= 1
    ensures k < n ==> Run(n, Initial, Ticks(k)).value.nextActive == k
    ensures Run(n, Initial, Ticks(n)).value.nextActive == 0
    ensures k >= 1 ==> Run(n, Initial, Ticks(k + n)) == Run(n, Initial, Ticks(k))
  {
    TicksFromInitial(n, k);
    TicksFromInitial(n, n);
    TicksFromInitial(n, k + n);
    ModUnique(n, 1, 0, n);
    if k < n {
      ModUnique(k, 0, k, n);
    }
    if k >= 1 {
      ModAddLaps(1, k, n);
      ModAddLaps(1, k - 1, n);
      assert k + n - 1 == 1 * n + (k - 1);
    }
  }

  /** While nothing but automatic advances happen, `nextActive` is the slide
      after `active`. */
  lemma TicksKeepLinked(n: int, k: nat)
    requires n >= 1
    ensures Linked(n, Run(n, Initial, Ticks(k)).value)
  {
    TicksFromInitial(n, k);
    if k > 0 {
      ModShift(k - 1, 1, n);
    }
  }

  /** A "CUSTOM" step keeps the pairing only when it selects the slide an
      automatic advance would have selected. */
  lemma CustomLinkedIff(n: int, s: State, i: int)
    requires n >= 1
    ensures Linked(n, Reduce(n, s, Custom(i)).value) <==> i == JsRem(s.nextActive + 1, n)
  {
  }

  /** An advance leaves `nextActive` where it was only on a single slide
      showing slide 0. */
  lemma NextFixedPointIff(n: int, x: int)
    requires n >= 1
    ensures JsRem(x + 1, n) == x <==> n == 1 && x == 0
  {
  }

  /** Actions that select real slides keep both indices in range, whatever
      they are interleaved with. */
  lemma {:induction false} RunKeepsRange(n: int, s: State, actions: seq<Action>)
    requires n >= 1 && InRange(n, s)
    requires forall k :: 0 <= k < |actions| && actions[k].Custom? ==> 0 <= actions[k].index < n
    ensures Run(n, s, actions).Success? ==> InRange(n, Run(n, s, actions).value)
    decreases |actions|
  {
    if actions != [] && !actions[0].Other? {
      var s1 := Reduce(n, s, actions[0]).value;
      assert forall k :: 0 <= k < |actions| - 1 ==> actions[1..][k] == actions[k + 1];
      RunKeepsRange(n, s1, actions[1..]);
    }
  }
}
