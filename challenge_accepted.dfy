/**
 * The countdown of components/challenge-accepted.tsx. While the overlay is
 * visible an interval fires every 100 ms; each tick reads the elapsed time,
 * updates the progress bar and the seconds shown, and once 5000 ms have
 * passed clears the interval, calls `onComplete` and opens the invite link.
 * Elapsed times are whole milliseconds; progress is an exact rational.
 * The component's own `parseChallengePart` is the same function as the one in
 * components/challenge-results.tsx and is modelled once, as
 * `ChallengeResults.ParseChallengePart`.
 */
module ChallengeAccepted {
  /** `duration` in milliseconds. */
  const Duration: int := 5000
  /** The interval period in milliseconds. */
  const TickPeriod: int := 100

  /** `Math.ceil(x / d)` for a positive `d`. */
  function CeilDiv(x: int, d: int): (q: int)
    requires d > 0
    ensures (q - 1) * d < x <= q * d
  {
    var f := (-x) / d;
    assert -x == d * f + (-x) % d;
    -f
  }

  /** `Math.max(Math.ceil((duration - elapsed) / 1000), 0)`: the seconds shown. */
  function SecondsLeft(elapsed: int): (s: int)
    ensures s >= 0
    ensures elapsed >= Duration ==> s == 0
    ensures elapsed < Duration ==> (s - 1) * 1000 < Duration - elapsed <= s * 1000
    ensures elapsed >= 0 ==> s <= 5
  {
    var q := CeilDiv(Duration - elapsed, 1000);
    if q > 0 then q else 0
  }

  /** The seconds shown never go up as time passes. */
  lemma SecondsLeftNonIncreasing(e1: int, e2: int)
    requires e1 <= e2
    ensures SecondsLeft(e2) <= SecondsLeft(e1)
  {
  }

  /** `Math.min((elapsed / duration) * 100, 100)`: the progress bar, in percent. */
  function ProgressPercent(elapsed: int): (p: real)
    ensures p <= 100.0
    ensures elapsed >= Duration ==> p == 100.0
    ensures elapsed < Duration ==> p < 100.0 && p * Duration as real == elapsed as real * 100.0
    ensures elapsed >= 0 ==> p >= 0.0
  {
    var raw := (elapsed as real / Duration as real) * 100.0;
    if raw < 100.0 then raw else 100.0
  }

  /** The progress bar never goes back as time passes. */
  lemma ProgressNonDecreasing(e1: int, e2: int)
    requires e1 <= e2
    ensures ProgressPercent(e1) <= ProgressPercent(e2)
  {
  }

  /**
   * The countdown's state: whether the interval is installed, the two state
   * variables it sets, and how often `onComplete` and the redirect have fired.
   */
  datatype Timer = Timer(running: bool, progress: real, timeLeft: int, completions: nat, redirects: nat)

  /**
   * The state after the effect runs: the interval is started only when the
   * overlay is visible, and the initial `useState(0)` and `useState(5)` are
   * what a tick at 0 ms would show.
   */
  function Start(isVisible: bool): (t: Timer)
    ensures t.running == isVisible && t.completions == 0 && t.redirects == 0
    ensures t.progress == ProgressPercent(0) && t.timeLeft == SecondsLeft(0)
  {
    Timer(isVisible, 0.0, 5, 0, 0)
  }

  /** One firing of the interval callback at `elapsed` ms; a cleared interval fires no more. */
  function Tick(t: Timer, elapsed: int): (r: Timer)
    ensures !t.running ==> r == t
    ensures t.running ==> r.progress == ProgressPercent(elapsed) && r.timeLeft == SecondsLeft(elapsed)
    ensures r.running <==> t.running && elapsed < Duration
    ensures r.completions - t.completions == r.redirects - t.redirects
    ensures r.completions == t.completions + 1 <==> t.running && elapsed >= Duration
    ensures r.completions == t.completions || r.completions == t.completions + 1
  {
    if !t.running then t
    else
      var shown := t.(progress := ProgressPercent(elapsed), timeLeft := SecondsLeft(elapsed));
      if elapsed >= Duration then
        shown.(running := false, completions := t.completions + 1, redirects := t.redirects + 1)
      else shown
  }

  /** The callback fired at each elapsed time of `es`, in order. */
  function RunTicks(t: Timer, es: seq<int>): Timer
    decreases |es|
  {
    if es == [] then t else RunTicks(Tick(t, es[0]), es[1..])
  }

  /** Some tick of `es` comes at or after the deadline. */
  ghost predicate ReachesDeadline(es: seq<int>) {
    exists k :: 0 <= k < |es| && es[k] >= Duration
  }

  /** Whatever the ticks, `onComplete` and the redirect fire together, at most once, and exactly when a tick reaches the deadline. */
  lemma {:induction false} CompletesOnce(t: Timer, es: seq<int>)
    requires t.completions == t.redirects <= 1
    requires t.completions == 1 ==> !t.running
    ensures RunTicks(t, es).completions == RunTicks(t, es).redirects <= 1
    ensures RunTicks(t, es).completions == 1 <==> t.completions == 1 || (t.running && ReachesDeadline(es))
    ensures RunTicks(t, es).running <==> t.running && !ReachesDeadline(es)
    decreases |es|
  {
    if es != [] {
      var next := Tick(t, es[0]);
      CompletesOnce(next, es[1..]);
      if ReachesDeadline(es[1..]) {
        var k :| 0 <= k < |es[1..]| && es[1..][k] >= Duration;
        assert es[k + 1] >= Duration;
      }
      if ReachesDeadline(es) && es[0] < Duration {
        var k :| 0 <= k < |es| && es[k] >= Duration;
        assert es[1..][k - 1] >= Duration;
      }
    }
  }

  /** No completion while every tick is before the deadline. */
  lemma NoCompletionBeforeDeadline(isVisible: bool, es: seq<int>)
    requires forall k :: 0 <= k < |es| ==> es[k] < Duration
    ensures RunTicks(Start(isVisible), es).completions == 0
    ensures RunTicks(Start(isVisible), es).running == isVisible
  {
    CompletesOnce(Start(isVisible), es);
  }

  /** A hidden overlay starts no interval, so no tick changes anything. */
  lemma {:induction false} HiddenDoesNothing(es: seq<int>)
    ensures RunTicks(Start(false), es) == Start(false)
    decreases |es|
  {
    if es != [] {
      HiddenDoesNothing(es[1..]);
    }
  }

  /** The elapsed times of the first `n` ticks of a 100 ms interval. */
  function TickTimes(n: nat): (es: seq<int>)
    ensures |es| == n
    ensures forall k :: 0 <= k < n ==> es[k] == (k + 1) * TickPeriod
  {
    seq(n, k => (k + 1) * TickPeriod)
  }

  /** On a visible overlay with ticks every 100 ms, the redirect fires exactly once, at the 50th tick. */
  lemma FiftiethTickCompletes(n: nat)
    ensures RunTicks(Start(true), TickTimes(n)).completions == if n >= 50 then 1 else 0
    ensures RunTicks(Start(true), TickTimes(n)).redirects == if n >= 50 then 1 else 0
  {
    var es := TickTimes(n);
    CompletesOnce(Start(true), es);
    if n >= 50 {
      assert es[49] >= Duration;
    }
  }

  /** The overlay of `ChallengeAccepted`, with its interval. */
  class Countdown {
    const isVisible: bool
    var running: bool
    var progress: real
    var timeLeft: int
    var completions: nat
    var redirects: nat

    function State(): Timer
      reads this
    {
      Timer(running, progress, timeLeft, completions, redirects)
    }

    /** Mounting: `useState(0)`, `useState(5)`, and the effect, which returns at once when not visible. */
    constructor (isVisible: bool)
      ensures this.isVisible == isVisible
      ensures State() == Start(isVisible)
      ensures Rendered() == State().running
    {
      this.isVisible := isVisible;
      running, progress, timeLeft, completions, redirects := isVisible, 0.0, 5, 0, 0;
    }

    /** `if (!isVisible) return null`: the overlay is rendered only when visible. */
    predicate Rendered()
      reads this
    {
      isVisible
    }

    /** The interval callback, at `elapsed` ms since the start. */
    method OnTick(elapsed: int)
      modifies this
      ensures State() == Tick(old(State()), elapsed)
    {
      if !running {
        return;
      }
      progress := ProgressPercent(elapsed);
      timeLeft := SecondsLeft(elapsed);
      if elapsed >= Duration {
        running := false;
        completions := completions + 1;
        redirects := redirects + 1;
      }
    }
  }
}
