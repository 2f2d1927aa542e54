/**
 * The double-tap recogniser: each touch end either fires the callback (when the
 * previous recorded tap is recent enough) or records itself as the last tap.
 */
module DoubleTap {
  import opened Wrappers

  /** The delay used when the caller gives none, in milliseconds. */
  const DEFAULT_DELAY_MS: int := 280

  /** The time of the last recorded tap, in milliseconds; `None` before any tap and after a double tap. */
  datatype TapState = TapState(lastTap: Option<int>)

  const Initial: TapState := TapState(None)

  /** The state after one touch end, and whether it fired the callback. */
  datatype Step = Step(state: TapState, fired: bool)

  /**
   * A recorded tap counts only when its time is non-zero (the check is on the
   * value's truthiness), and the gap is compared with `<=`.
   */
  predicate Recent(s: TapState, now: int, delayMs: int) {
    s.lastTap.Some? && s.lastTap.value != 0 && now - s.lastTap.value <= delayMs
  }

  /** `onTouchEnd` at time `now`. */
  function OnTouchEnd(s: TapState, now: int, delayMs: int): (r: Step)
    ensures r.fired == Recent(s, now, delayMs)
    ensures r.fired ==> r.state == Initial
    ensures !r.fired ==> r.state.lastTap == Some(now)
  {
    if Recent(s, now, delayMs) then Step(Initial, true) else Step(TapState(Some(now)), false)
  }

  /** The state after a sequence of touch ends, with the number of times the callback fired. */
  datatype Trace = Trace(state: TapState, fires: nat)

  function Run(taps: seq<int>, delayMs: int): Trace
    decreases |taps|
  {
    if |taps| == 0 then Trace(Initial, 0)
    else
      var before := Run(taps[..|taps| - 1], delayMs);
      var step := OnTouchEnd(before.state, taps[|taps| - 1], delayMs);
      Trace(step.state, before.fires + if step.fired then 1 else 0)
  }

  /** The first tap never fires, and it records its own time. */
  lemma FirstTapNeverFires(now: int, delayMs: int)
    ensures !OnTouchEnd(Initial, now, delayMs).fired
    ensures OnTouchEnd(Initial, now, delayMs).state == TapState(Some(now))
  {
  }

  /** A second tap within the delay of a first tap at a non-zero time fires exactly once. */
  lemma TwoQuickTapsFireOnce(t1: int, t2: int, delayMs: int)
    requires t1 != 0 && t2 - t1 <= delayMs
    ensures Run([t1, t2], delayMs) == Trace(Initial, 1)
  {
    assert [t1, t2][..1] == [t1];
    assert [t1][..0] == [];
    assert Run([t1], delayMs) == Trace(TapState(Some(t1)), 0);
  }

  /** A third tap right after a double tap starts over and does not fire. */
  lemma ThirdTapDoesNotFire(t1: int, t2: int, t3: int, delayMs: int)
    requires t1 != 0 && t2 - t1 <= delayMs
    ensures Run([t1, t2, t3], delayMs) == Trace(TapState(Some(t3)), 1)
  {
    assert [t1, t2, t3][..2] == [t1, t2];
    TwoQuickTapsFireOnce(t1, t2, delayMs);
  }

  /** Two taps further apart than the delay do not fire; the second becomes the last tap. */
  lemma SlowTapsDoNotFire(t1: int, t2: int, delayMs: int)
    requires t2 - t1 > delayMs
    ensures Run([t1, t2], delayMs) == Trace(TapState(Some(t2)), 0)
  {
    assert [t1, t2][..1] == [t1];
    assert [t1][..0] == [];
    assert Run([t1], delayMs) == Trace(TapState(Some(t1)), 0);
  }

  /** A recorded time of 0 is taken for "no tap", so a tap after it never fires. */
  lemma ZeroTimeIsNoTap(now: int, delayMs: int)
    ensures !OnTouchEnd(TapState(Some(0)), now, delayMs).fired
  {
  }

  /** Two taps at the same non-zero instant with a 400 ms delay fire the callback once. */
  lemma SameInstantTaps(t: int)
    requires t != 0
    ensures Run([t, t], 400).fires == 1
  {
    TwoQuickTapsFireOnce(t, t, 400);
  }

  /** With the default delay, taps 280 ms apart are a double tap and taps 281 ms apart are not. */
  lemma DefaultDelayBoundary(t: int)
    requires t != 0
    ensures Run([t, t + 280], DEFAULT_DELAY_MS).fires == 1
    ensures Run([t, t + 281], DEFAULT_DELAY_MS).fires == 0
  {
    TwoQuickTapsFireOnce(t, t + 280, DEFAULT_DELAY_MS);
    SlowTapsDoNotFire(t, t + 281, DEFAULT_DELAY_MS);
  }

  /**
   * Every firing consumes two taps: the fire count is at most half the number
   * of taps, and a recorded tap is one not yet consumed.
   */
  lemma {:induction false} FiresAtMostHalf(taps: seq<int>, delayMs: int)
    ensures 2 * Run(taps, delayMs).fires + (if Run(taps, delayMs).state.lastTap.Some? then 1 else 0) <= |taps|
    decreases |taps|
  {
    if |taps| > 0 {
      FiresAtMostHalf(taps[..|taps| - 1], delayMs);
    }
  }

  /** The tap right after one that fired never fires. */
  lemma {:induction false} NoFireRightAfterFire(taps: seq<int>, now: int, delayMs: int)
    requires |taps| > 0
    requires Run(taps, delayMs).fires > Run(taps[..|taps| - 1], delayMs).fires
    ensures Run(taps + [now], delayMs).fires == Run(taps, delayMs).fires
  {
    assert (taps + [now])[..|taps|] == taps;
  }
}
