/**
 * The pure arithmetic of the finite scroll session in src/scrollImages.js:
 * the timeline length, the clamp applied on every smoothed tick, the
 * per-heading fade phase, the per-video activation window and the
 * end-of-sequence fade of the component. Every quantity is a `real`
 * (JavaScript numbers without their rounding).
 */
module Timeline {

  function Min(a: real, b: real): real { if a <= b then a else b }
  function Max(a: real, b: real): real { if a >= b then a else b }

  /** Start time of the scale tween of the element at `index` (GSAP stagger `each`). */
  function StartTime(index: nat, staggerTime: real): real
  {
    index as real * staggerTime
  }

  /**
   * totalDuration for `count` collected media: the end of the scale tween of
   * the element at index count - 1, and no element at a lower index ends
   * later. The elements themselves are staggered by their own index, so this
   * is the last element's end only when every element is collected.
   */
  function TotalDuration(count: nat, staggerTime: real, animationDuration: real): (total: real)
    requires count >= 1
    ensures total == StartTime(count - 1, staggerTime) + animationDuration
    ensures staggerTime >= 0.0 ==>
      forall i: nat :: i < count ==> StartTime(i, staggerTime) + animationDuration <= total
  {
    LaterStartsLater(count - 1, staggerTime);
    (count - 1) as real * staggerTime + animationDuration
  }

  lemma LaterStartsLater(last: nat, staggerTime: real)
    ensures staggerTime >= 0.0 ==>
      forall i: nat :: i <= last ==> StartTime(i, staggerTime) <= StartTime(last, staggerTime)
  {
    if staggerTime >= 0.0 {
      forall i: nat | i <= last
        ensures StartTime(i, staggerTime) <= StartTime(last, staggerTime)
      {
        assert StartTime(last, staggerTime) - StartTime(i, staggerTime) == (last - i) as real * staggerTime;
      }
    }
  }

  /** The default configuration: 8 media, stagger 2.5, duration 2 give 19.5. */
  lemma TotalDurationOfEight()
    ensures TotalDuration(8, 2.5, 2.0) == 19.5
  {
  }

  /**
   * Math.max(0, Math.min(x, total)): the position after a tick. The floor
   * is the constant 0, and it wins when total is negative.
   */
  function ClampToTimeline(x: real, total: real): (r: real)
    ensures total >= 0.0 ==> 0.0 <= r <= total
    ensures 0.0 <= x <= total ==> r == x
    ensures x < 0.0 ==> r == 0.0
    ensures 0.0 <= total < x ==> r == total
    ensures total < 0.0 ==> r == 0.0
  {
    Max(0.0, Min(x, total))
  }

  /** Clamping an already clamped position changes nothing. */
  lemma ClampIdempotent(x: real, total: real)
    requires total >= 0.0
    ensures ClampToTimeline(ClampToTimeline(x, total), total) == ClampToTimeline(x, total)
  {
  }

  /** Clamping preserves order: a larger sum never lands before a smaller one. */
  lemma ClampMonotone(x: real, y: real, total: real)
    requires x <= y
    ensures ClampToTimeline(x, total) <= ClampToTimeline(y, total)
  {
  }

  /**
   * The position after feeding the eased deltas `deltas` one tick at a time.
   * Clamp invariant: after at least one tick (or from a position already in
   * range) the position lies in [0, total].
   */
  function Integrate(incr: real, deltas: seq<real>, total: real): (r: real)
    ensures total >= 0.0 && (|deltas| > 0 || 0.0 <= incr <= total) ==> 0.0 <= r <= total
    decreases |deltas|
  {
    if |deltas| == 0 then incr
    else Integrate(ClampToTimeline(incr + deltas[0], total), deltas[1..], total)
  }

  /** Feeding `a` and then `b` ends where feeding `a + b` in one go does: ticks compose. */
  lemma {:induction false} IntegrateAppend(incr: real, a: seq<real>, b: seq<real>, total: real)
    ensures Integrate(incr, a + b, total) == Integrate(Integrate(incr, a, total), b, total)
    decreases |a|
  {
    if |a| > 0 {
      assert (a + b)[0] == a[0];
      assert (a + b)[1..] == a[1..] + b;
      IntegrateAppend(ClampToTimeline(incr + a[0], total), a[1..], b, total);
    } else {
      assert a + b == b;
    }
  }

  /** Scrolling only forward never moves the position back. */
  lemma {:induction false} IntegrateForward(incr: real, deltas: seq<real>, total: real)
    requires 0.0 <= incr <= total
    requires forall k :: 0 <= k < |deltas| ==> deltas[k] >= 0.0
    ensures incr <= Integrate(incr, deltas, total) <= total
    decreases |deltas|
  {
    if |deltas| > 0 {
      var next := ClampToTimeline(incr + deltas[0], total);
      IntegrateForward(next, deltas[1..], total);
    }
  }

  // ---- headings -----------------------------------------------------------

  /** How long a heading takes to fade in, how long after its trigger it starts to fade out, and how long that takes. */
  const FadeInDuration: real := 0.6
  const HoldDuration: real := 1.5
  const FadeOutDuration: real := 0.6
  /** Vertical travel of a heading, in pixels. */
  const HeadingOffset: real := 30.0

  datatype HeadingStyle = HeadingStyle(opacity: real, y: real)

  /** The style every heading gets before the first update. */
  const HiddenBelow := HeadingStyle(0.0, HeadingOffset)

  /** A heading's trigger time: its progress percentage of the whole timeline. */
  function TriggerTime(progressPercent: real, total: real): real
  {
    progressPercent / 100.0 * total
  }

  /**
   * The style of a heading whose trigger time is `trigger` when the timeline
   * is at `incr`. The four branches are tested in the source's order.
   */
  function HeadingAt(incr: real, trigger: real): (h: HeadingStyle)
    ensures 0.0 <= h.opacity <= 1.0
    ensures -HeadingOffset <= h.y <= HeadingOffset
    ensures incr < trigger + HoldDuration ==> h.y == HeadingOffset * (1.0 - h.opacity)
    ensures incr >= trigger + HoldDuration ==> h.y == -HeadingOffset * (1.0 - h.opacity)
  {
    var fadeOutTime := trigger + HoldDuration;
    if incr >= trigger && incr < fadeOutTime then
      var fadeIn := Min((incr - trigger) / FadeInDuration, 1.0);
      HeadingStyle(fadeIn, HeadingOffset - fadeIn * HeadingOffset)
    else if incr >= fadeOutTime && incr < fadeOutTime + FadeOutDuration then
      var fadeOut := (incr - fadeOutTime) / FadeOutDuration;
      HeadingStyle(1.0 - fadeOut, -HeadingOffset * fadeOut)
    else if incr < trigger then
      HiddenBelow
    else
      HeadingStyle(0.0, -HeadingOffset)
  }

  /** A heading is visible at all exactly strictly between its trigger and the end of its fade-out. */
  lemma HeadingVisibleWindow(incr: real, trigger: real)
    ensures HeadingAt(incr, trigger).opacity > 0.0
        <==> trigger < incr < trigger + HoldDuration + FadeOutDuration
  {
  }

  /** A heading is fully opaque exactly from the end of its fade-in to the start of its fade-out. */
  lemma HeadingOpaqueWindow(incr: real, trigger: real)
    ensures HeadingAt(incr, trigger).opacity == 1.0
        <==> trigger + FadeInDuration <= incr <= trigger + HoldDuration
  {
  }

  /** Before its trigger a heading waits below; after its fade-out it rests above. */
  lemma HeadingRestStates(incr: real, trigger: real)
    ensures incr < trigger ==> HeadingAt(incr, trigger) == HiddenBelow
    ensures incr >= trigger + HoldDuration + FadeOutDuration
        ==> HeadingAt(incr, trigger) == HeadingStyle(0.0, -HeadingOffset)
  {
  }

  /** During the fade-in opacity strictly increases with the position. */
  lemma HeadingFadeInIncreasing(a: real, b: real, trigger: real)
    requires trigger <= a < b <= trigger + FadeInDuration
    ensures HeadingAt(a, trigger).opacity < HeadingAt(b, trigger).opacity
  {
  }

  /** During the fade-out opacity strictly decreases with the position. */
  lemma HeadingFadeOutDecreasing(a: real, b: real, trigger: real)
    requires trigger + HoldDuration <= a < b <= trigger + HoldDuration + FadeOutDuration
    ensures HeadingAt(a, trigger).opacity > HeadingAt(b, trigger).opacity
  {
  }

  function AbsR(x: real): real { if x < 0.0 then -x else x }

  /**
   * No jumps: opacity changes by at most |a - b| / 0.6 between two positions,
   * so the four phases meet without a discontinuity.
   */
  lemma HeadingOpacityLipschitz(a: real, b: real, trigger: real)
    ensures AbsR(HeadingAt(a, trigger).opacity - HeadingAt(b, trigger).opacity)
         <= AbsR(a - b) / FadeInDuration
  {
    if a > b {
      HeadingOpacityLipschitzOrdered(b, a, trigger);
    } else {
      HeadingOpacityLipschitzOrdered(a, b, trigger);
    }
  }

  lemma HeadingOpacityLipschitzOrdered(a: real, b: real, trigger: real)
    requires a <= b
    ensures AbsR(HeadingAt(a, trigger).opacity - HeadingAt(b, trigger).opacity)
         <= (b - a) / FadeInDuration
  {
    var t1 := trigger + HoldDuration;
    var t2 := t1 + FadeOutDuration;
    // Bound each position's opacity against the phase boundaries between a and b.
    if a < trigger || a >= t2 {
      if b < trigger || b >= t2 {
      } else if b < t1 {
        assert HeadingAt(b, trigger).opacity <= (b - trigger) / FadeInDuration;
      } else {
        assert HeadingAt(b, trigger).opacity <= (t2 - b) / FadeInDuration;
      }
    } else if a < t1 {
      if b < t1 {
      } else if b < t2 {
      } else {
        assert HeadingAt(a, trigger).opacity <= 1.0;
      }
    } else {
      if b >= t2 {
        assert HeadingAt(a, trigger).opacity == (t2 - a) / FadeOutDuration;
      }
    }
  }

  // ---- videos -------------------------------------------------------------

  /**
   * The element at `index` is active while the timeline is between its own
   * start and the moment the NEXT element has finished scaling up.
   */
  function VideoShouldBeActive(index: nat, incr: real, staggerTime: real, animationDuration: real): (active: bool)
    ensures active <==> StartTime(index, staggerTime) <= incr < StartTime(index + 1, staggerTime) + animationDuration
  {
    var startTime := StartTime(index, staggerTime);
    assert StartTime(index + 1, staggerTime) == startTime + staggerTime;
    incr >= startTime && incr < startTime + staggerTime + animationDuration
  }

  /**
   * When a tween is no longer than the stagger (2 <= 2.5 by default), no two
   * elements two or more places apart are active together: at most two
   * videos play at once.
   */
  lemma AtMostTwoActive(i: nat, j: nat, incr: real, staggerTime: real, animationDuration: real)
    requires 0.0 <= animationDuration <= staggerTime
    requires j >= i + 2
    ensures !(VideoShouldBeActive(i, incr, staggerTime, animationDuration)
              && VideoShouldBeActive(j, incr, staggerTime, animationDuration))
  {
    assert StartTime(j, staggerTime) - StartTime(i, staggerTime) == (j - i) as real * staggerTime;
    assert (j - i) as real * staggerTime >= 2.0 * staggerTime;
  }

  // ---- end of sequence ------------------------------------------------------

  /**
   * The component's opacity at `progress`: 1 until fadeOutStart, then a
   * straight line that reaches 0 at progress 1.
   */
  function ComponentOpacity(progress: real, fadeOutStart: real): (o: real)
    requires fadeOutStart < 1.0
    ensures progress < fadeOutStart ==> o == 1.0
    ensures progress == 1.0 ==> o == 0.0
    ensures fadeOutStart <= progress <= 1.0 ==> 0.0 <= o <= 1.0
    ensures fadeOutStart <= progress ==> o * (1.0 - fadeOutStart) == 1.0 - progress
  {
    if progress >= fadeOutStart then
      var d := 1.0 - fadeOutStart;
      var fadeProgress := (progress - fadeOutStart) / d;
      FractionBounds(progress - fadeOutStart, d);
      assert fadeProgress * d == progress - fadeOutStart;
      assert (1.0 - fadeProgress) * d == d - fadeProgress * d;
      1.0 - fadeProgress
    else
      1.0
  }

  /** x / d lies in [0, 1] when x lies in [0, d], and is 1 exactly at x == d. */
  lemma FractionBounds(x: real, d: real)
    requires d > 0.0
    ensures 0.0 <= x ==> 0.0 <= x / d
    ensures x <= d ==> x / d <= 1.0
    ensures x == d ==> x / d == 1.0
    ensures x < d ==> x / d < 1.0
  {
  }

  /** Dividing by a positive number preserves order. */
  lemma DivideMonotone(x: real, y: real, d: real)
    requires d > 0.0 && x <= y
    ensures x / d <= y / d
  {
    assert y / d - x / d == (y - x) / d;
  }

  /** The component only ever fades further as progress grows. */
  lemma ComponentOpacityNonIncreasing(p: real, q: real, fadeOutStart: real)
    requires fadeOutStart < 1.0 && p <= q
    ensures ComponentOpacity(q, fadeOutStart) <= ComponentOpacity(p, fadeOutStart)
  {
    var d := 1.0 - fadeOutStart;
    if p >= fadeOutStart {
      DivideMonotone(p - fadeOutStart, q - fadeOutStart, d);
    } else if q >= fadeOutStart {
      FractionBounds(q - fadeOutStart, d);
    }
  }

  /** The form is shown once the whole sequence has been played. */
  predicate FormShown(progress: real)
  {
    progress >= 1.0
  }
}
