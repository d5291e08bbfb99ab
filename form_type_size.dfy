/**
 * The font fitting of src/formTypeSize.js: on every input event the form
 * input's font size is chosen by a 15-step bisection between 1vw and the
 * placeholder size 17.5vw, testing at each step whether the value, rendered
 * at the midpoint size, is at most 98% of the input's width. An empty value
 * skips the search and takes the placeholder size.
 *
 * The width of the rendered text is a measurement of the page; here it is
 * the function `measure` from a font size to a width, for the current value.
 */
module FormTypeSize {
  import opened Optional

  /** The placeholder size, the start of the search and its upper end. */
  const BaseFontSize: real := 17.5
  /** The lower end of the search. */
  const MinFontSize: real := 1.0
  /** The bisection always runs this many steps. */
  const Iterations: nat := 15
  /** The share of the input's width the text may take. */
  const FitRatio: real := 0.98

  /** textWidth <= inputWidth * 0.98 for the value rendered at `size`. */
  predicate Fits(measure: real -> real, inputWidth: real, size: real)
  {
    measure(size) <= inputWidth * FitRatio
  }

  /** The loop's three variables. */
  datatype Search = Search(minSize: real, maxSize: real, optimalSize: real)

  const InitialSearch := Search(MinFontSize, BaseFontSize, BaseFontSize)

  /** The size tested by the next step: the middle of the interval. */
  function TestSize(s: Search): real
  {
    (s.minSize + s.maxSize) / 2.0
  }

  /**
   * One iteration: a fitting test raises minSize to the test size and records
   * it as optimal, a failing test lowers maxSize to it. The interval halves
   * and the test lies inside it.
   */
  function Step(s: Search, measure: real -> real, inputWidth: real): (r: Search)
    ensures r.maxSize - r.minSize == (s.maxSize - s.minSize) / 2.0
    ensures s.minSize <= s.maxSize ==> s.minSize <= r.minSize && r.maxSize <= s.maxSize
    ensures Fits(measure, inputWidth, TestSize(s)) ==>
      r.minSize == TestSize(s) && r.optimalSize == TestSize(s)
    ensures !Fits(measure, inputWidth, TestSize(s)) ==>
      r.maxSize == TestSize(s) && r.optimalSize == s.optimalSize
  {
    var t := TestSize(s);
    if Fits(measure, inputWidth, t) then Search(t, s.maxSize, t)
    else Search(s.minSize, t, s.optimalSize)
  }

  /** The state after k iterations: the interval has been halved k times. */
  function Bisect(k: nat, measure: real -> real, inputWidth: real): (r: Search)
    ensures r.maxSize - r.minSize == Width(k)
  {
    if k == 0 then InitialSearch else Step(Bisect(k - 1, measure, inputWidth), measure, inputWidth)
  }

  /** The interval's width after k halvings of 17.5 - 1. */
  function Width(k: nat): (w: real)
    ensures w > 0.0
  {
    if k == 0 then BaseFontSize - MinFontSize else Width(k - 1) / 2.0
  }

  /** The sizes tested in the first k iterations, in order. */
  function Tests(k: nat, measure: real -> real, inputWidth: real): (r: seq<real>)
    ensures |r| == k
  {
    if k == 0 then []
    else Tests(k - 1, measure, inputWidth) + [TestSize(Bisect(k - 1, measure, inputWidth))]
  }

  /** The last size in `tests` that fits, if any: it fits and no later test does. */
  function LastFitting(tests: seq<real>, measure: real -> real, inputWidth: real): (r: Option<real>)
    ensures r.Some? ==> exists k :: (0 <= k < |tests| && tests[k] == r.value
      && Fits(measure, inputWidth, tests[k])
      && forall j :: k < j < |tests| ==> !Fits(measure, inputWidth, tests[j]))
    ensures r.None? ==> forall k :: 0 <= k < |tests| ==> !Fits(measure, inputWidth, tests[k])
  {
    if |tests| == 0 then None
    else if Fits(measure, inputWidth, tests[|tests| - 1]) then Some(tests[|tests| - 1])
    else
      var prefix := tests[..|tests| - 1];
      var r := LastFitting(prefix, measure, inputWidth);
      assert forall k :: 0 <= k < |prefix| ==> prefix[k] == tests[k];
      r
  }

  /**
   * updateFontSize's target: the placeholder size for an empty value,
   * otherwise the optimal size after the fifteen steps. It always lies
   * between 1 and 17.5.
   */
  function FittedSize(value: string, inputWidth: real, measure: real -> real): (size: real)
    ensures MinFontSize <= size <= BaseFontSize
  {
    if |value| == 0 then BaseFontSize
    else
      BisectInvariant(Iterations, measure, inputWidth);
      Bisect(Iterations, measure, inputWidth).optimalSize
  }

  /**
   * The loop keeps 1 <= minSize <= maxSize <= 17.5 with the interval halved
   * at every step, and the optimal size is still 17.5 or equals minSize.
   * minSize is 1 or a size that fits; maxSize is 17.5 or a size that does not.
   */
  lemma {:induction false} BisectInvariant(k: nat, measure: real -> real, inputWidth: real)
    ensures var s := Bisect(k, measure, inputWidth);
      && MinFontSize <= s.minSize <= s.maxSize <= BaseFontSize
      && s.maxSize - s.minSize == Width(k)
      && (s.optimalSize == BaseFontSize || s.optimalSize == s.minSize)
      && (s.minSize == MinFontSize || Fits(measure, inputWidth, s.minSize))
      && (s.maxSize == BaseFontSize || !Fits(measure, inputWidth, s.maxSize))
  {
    if k > 0 {
      BisectInvariant(k - 1, measure, inputWidth);
    }
  }

  /** minSize never decreases and maxSize never increases from one step to a later one. */
  lemma {:induction false} BisectMonotone(i: nat, j: nat, measure: real -> real, inputWidth: real)
    requires i <= j
    ensures Bisect(i, measure, inputWidth).minSize <= Bisect(j, measure, inputWidth).minSize
    ensures Bisect(j, measure, inputWidth).maxSize <= Bisect(i, measure, inputWidth).maxSize
  {
    if i < j {
      BisectMonotone(i, j - 1, measure, inputWidth);
      BisectInvariant(j - 1, measure, inputWidth);
    }
  }

  /** Every tested size lies strictly inside (1, 17.5), so 17.5 itself is never tested. */
  lemma {:induction false} TestsBelowBase(k: nat, measure: real -> real, inputWidth: real)
    ensures forall i :: 0 <= i < k ==> MinFontSize < Tests(k, measure, inputWidth)[i] < BaseFontSize
  {
    if k > 0 {
      TestsBelowBase(k - 1, measure, inputWidth);
      BisectInvariant(k - 1, measure, inputWidth);
      var prev := Tests(k - 1, measure, inputWidth);
      assert Tests(k, measure, inputWidth) == prev + [TestSize(Bisect(k - 1, measure, inputWidth))];
    }
  }

  /**
   * The optimal size is the last tested size that fit, or 17.5 when none
   * did.
   */
  lemma {:induction false} OptimalIsLastFitting(k: nat, measure: real -> real, inputWidth: real)
    ensures var last := LastFitting(Tests(k, measure, inputWidth), measure, inputWidth);
      Bisect(k, measure, inputWidth).optimalSize == (if last.Some? then last.value else BaseFontSize)
  {
    if k > 0 {
      OptimalIsLastFitting(k - 1, measure, inputWidth);
      var prev := Tests(k - 1, measure, inputWidth);
      var tests := Tests(k, measure, inputWidth);
      assert tests[..|tests| - 1] == prev;
    }
  }

  /** The result is 17.5 exactly when no tested size fit, and otherwise a size that fits. */
  lemma FittedSizeFits(value: string, inputWidth: real, measure: real -> real)
    requires |value| > 0
    ensures var tests := Tests(Iterations, measure, inputWidth);
      && ((FittedSize(value, inputWidth, measure) == BaseFontSize) <==>
            (forall i :: 0 <= i < |tests| ==> !Fits(measure, inputWidth, tests[i])))
      && (FittedSize(value, inputWidth, measure) != BaseFontSize ==>
            Fits(measure, inputWidth, FittedSize(value, inputWidth, measure)))
  {
    var tests := Tests(Iterations, measure, inputWidth);
    OptimalIsLastFitting(Iterations, measure, inputWidth);
    TestsBelowBase(Iterations, measure, inputWidth);
    var last := LastFitting(tests, measure, inputWidth);
    if last.Some? {
      var i :| 0 <= i < |tests| && tests[i] == last.value;
    }
  }

  /**
   * When text only gets wider as the font grows, the search brackets the
   * largest size that fits: no fitting size up to 17.5 lies above maxSize,
   * and a found size is within the final interval's width of every fitting
   * size.
   */
  lemma NearLargestFit(measure: real -> real, inputWidth: real, s: real)
    requires forall a, b :: a <= b && Fits(measure, inputWidth, b) ==> Fits(measure, inputWidth, a)
    requires Fits(measure, inputWidth, s) && s <= BaseFontSize
    ensures s <= Bisect(Iterations, measure, inputWidth).maxSize
    ensures Bisect(Iterations, measure, inputWidth).optimalSize != BaseFontSize ==>
      s - Bisect(Iterations, measure, inputWidth).optimalSize <= Width(Iterations)
  {
    BisectInvariant(Iterations, measure, inputWidth);
  }

  /** A form input with its current value and the font size last targeted for it. */
  class SizedInput {
    var value: string
    var fontSize: real

    /** gsap.set at start-up: the placeholder size. */
    constructor (value: string)
      ensures this.value == value && fontSize == BaseFontSize
    {
      this.value := value;
      fontSize := BaseFontSize;
    }

    /**
     * updateFontSize, with the input's width and the text measurement taken
     * at the time of the event.
     */
    method UpdateFontSize(inputWidth: real, measure: real -> real)
      modifies this`fontSize
      ensures fontSize == FittedSize(value, inputWidth, measure)
    {
      if |value| == 0 {
        fontSize := BaseFontSize;
        return;
      }
      var minSize, maxSize, optimalSize := MinFontSize, BaseFontSize, BaseFontSize;
      for i := 0 to Iterations
        invariant Search(minSize, maxSize, optimalSize) == Bisect(i, measure, inputWidth)
      {
        var testSize := (minSize + maxSize) / 2.0;
        var textWidth := measure(testSize);
        if textWidth <= inputWidth * FitRatio {
          minSize := testSize;
          optimalSize := testSize;
        } else {
          maxSize := testSize;
        }
        assert Bisect(i + 1, measure, inputWidth) == Step(Bisect(i, measure, inputWidth), measure, inputWidth);
      }
      fontSize := optimalSize;
    }
  }
}
