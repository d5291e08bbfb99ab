/**
 * The infinite-wrap scroll session of src/scrollImagesInfinite.js
 * (`initScrollImagesInfinite`): an unbounded position, and a fixed ring of
 * image elements whose `data-index` and `src` are rewritten whenever one of
 * them repeats, so that the ring keeps showing consecutive media. Which
 * element repeats, and when, is decided by the GSAP timeline and is an input.
 */
module ScrollImagesInfinite {
  import opened Optional
  import opened Helpers
  import opened ScrollInput

  /**
   * The hard-coded divisors (the configured scrollSensitivity is never read):
   * they are the finite session's default sensitivity.
   */
  function InfiniteDivisor(eventType: string): (d: real)
    ensures d > 0.0
    ensures d == Divisor(eventType, DefaultSensitivity)
  {
    if eventType == TouchMove then 500.0 else 1000.0
  }

  /** The hard-coded divisors give the finite session's default delta targets, for every event type. */
  lemma InfiniteDivisorIsDefault(deltaY: real, eventType: string)
    ensures InfiniteDeltaTarget(deltaY, eventType) == DeltaTarget(deltaY, eventType, DefaultSensitivity)
  {
  }

  /** The value handed to deltaTo: it keeps the sign of the gesture and scales it by the divisor. */
  function InfiniteDeltaTarget(deltaY: real, eventType: string): (target: real)
    ensures target > 0.0 <==> deltaY > 0.0
    ensures target < 0.0 <==> deltaY < 0.0
    ensures target * InfiniteDivisor(eventType) == deltaY
  {
    deltaY / InfiniteDivisor(eventType)
  }

  /**
   * The reference element for a repeat of element k among `count`: forward,
   * the previous sibling (or the last element for the first); backward, the
   * next sibling (or the first element for the last). It is k's neighbour on
   * the ring.
   */
  function ReferenceIndex(k: nat, count: nat, forward: bool): (r: nat)
    requires k < count
    ensures r < count
    ensures forward ==> Mod(r + 1, count) == k
    ensures !forward ==> Mod(k + 1, count) == r
  {
    var r := if forward then (if k > 0 then k - 1 else count - 1)
             else (if k < count - 1 then k + 1 else 0);
    StepOnRing(if forward then r else k, count);
    r
  }

  /** One step along the ring of `count` positions wraps from the last to the first. */
  lemma StepOnRing(i: nat, count: nat)
    requires i < count
    ensures Mod(i + 1, count) == if i < count - 1 then i + 1 else 0
  {
    if i < count - 1 {
      ModOfIndex(i + 1, count);
    } else {
      ModPeriodic(0, 1, count);
      ModOfIndex(0, count);
    }
  }

  /**
   * `mod(refIndex ± 1, mediaCount)`: a valid media index one step from the
   * reference's index, in the direction of travel.
   */
  function NewIndex(refIndex: int, forward: bool, mediaCount: int): (r: int)
    requires mediaCount > 0
    ensures 0 <= r < mediaCount
    ensures (r - (refIndex + (if forward then 1 else -1))) % mediaCount == 0
  {
    Mod(refIndex + (if forward then 1 else -1), mediaCount)
  }

  /** The `.scroll_images_final` subtree: its number of `.scroll_image` elements and the media sources. */
  datatype InfiniteComponent = InfiniteComponent(imageCount: nat, medias: seq<string>)

  class InfiniteSession {
    const medias: seq<string>
    const imageCount: nat
    /** The configured sensitivity: kept, but never read. */
    const scrollSensitivity: Sensitivity

    /** Per element: its `data-index` and `src` attributes and its style.zIndex (0 until set). */
    var dataIndex: seq<int>
    var src: seq<string>
    var zOrder: seq<int>
    var zIndex: int
    /** The unbounded position. */
    var incr: real
    /** settings.delta: the smoother's current eased value, which also gives the direction. */
    var delta: real
    /** The last target handed to deltaTo. */
    var deltaTarget: real
    var isScrollEnabled: bool

    /** Every element shows the media its data-index selects, modulo the number of media. */
    ghost predicate Valid()
      reads this
    {
      && |medias| >= 1 && imageCount >= 1
      && |dataIndex| == imageCount && |src| == imageCount && |zOrder| == imageCount
      && forall i :: 0 <= i < imageCount ==> src[i] == medias[Mod(dataIndex[i], |medias|)]
    }

    /** Every element's src is one of the media. */
    lemma SrcIsMedia(i: nat)
      requires Valid() && i < imageCount
      ensures src[i] in medias
    {
    }

    /**
     * The init loop: element i gets data-index i and src medias[i % |medias|],
     * and the z-index counter ends at the number of elements.
     */
    constructor (imageCount: nat, medias: seq<string>, scrollSensitivity: Sensitivity)
      requires imageCount >= 1 && |medias| >= 1
      ensures Valid()
      ensures this.imageCount == imageCount && this.medias == medias
      ensures forall i :: 0 <= i < imageCount ==> dataIndex[i] == i && src[i] == medias[i % |medias|]
      ensures zIndex == imageCount
      ensures forall i :: 0 <= i < imageCount ==> zOrder[i] == 0
      ensures incr == 0.0 && delta == 0.0 && deltaTarget == 0.0 && !isScrollEnabled
    {
      this.imageCount := imageCount;
      this.medias := medias;
      this.scrollSensitivity := scrollSensitivity;
      var z := 0;
      var indices: seq<int> := [];
      var sources: seq<string> := [];
      while z < imageCount
        invariant 0 <= z <= imageCount && |indices| == z && |sources| == z
        invariant forall i :: 0 <= i < z ==> indices[i] == i && sources[i] == medias[i % |medias|]
      {
        indices := indices + [z];
        sources := sources + [medias[z % |medias|]];
        z := z + 1;
      }
      forall i | 0 <= i < imageCount
        ensures sources[i] == medias[Mod(indices[i], |medias|)]
      {
        ModIsEuclidean(i, |medias|);
      }
      dataIndex := indices;
      src := sources;
      zIndex := z;
      zOrder := seq(imageCount, _ => 0);
      incr := 0.0;
      delta := 0.0;
      deltaTarget := 0.0;
      isScrollEnabled := false;
    }

    /** The deltaTo onUpdate tick: the eased value is added without any clamp. */
    method OnDeltaUpdate(value: real)
      modifies this`delta, this`incr
      ensures delta == value
      ensures incr == old(incr) + value
    {
      delta := value;
      incr := incr + delta;
    }

    /**
     * onRepeat of element k: step the z-index counter in the direction of
     * travel, raise (forward) or sink (backward) k, and make k show the media
     * after (forward) or before (backward) its reference neighbour's.
     */
    method OnRepeat(k: nat)
      requires Valid() && k < imageCount
      modifies this`zIndex, this`zOrder, this`dataIndex, this`src
      ensures Valid()
      ensures var forward := delta >= 0.0;
        && zIndex == old(zIndex) + (if forward then 1 else -1)
        && zOrder == old(zOrder)[k := if forward then zIndex else zIndex - (imageCount - 1)]
        && var ref := ReferenceIndex(k, imageCount, forward);
           && dataIndex == old(dataIndex)[k := NewIndex(old(dataIndex)[ref], forward, |medias|)]
           && src == old(src)[k := medias[dataIndex[k]]]
    {
      var movingForward := delta >= 0.0;
      zIndex := zIndex + (if movingForward then 1 else -1);
      zOrder := zOrder[k := if movingForward then zIndex else zIndex - (imageCount - 1)];
      var referenceEl := ReferenceIndex(k, imageCount, movingForward);
      var newIndex := NewIndex(dataIndex[referenceEl], movingForward, |medias|);
      ModOfIndex(newIndex, |medias|);
      dataIndex := dataIndex[k := newIndex];
      src := src[k := medias[newIndex]];
    }

    /**
     * Both getters return the raw accumulated time: unlike in the finite
     * session, the progress is not a fraction of a total duration.
     */
    function GetProgress(): (p: real)
      reads this
      ensures p == GetCurrentTime()
    {
      incr
    }

    function GetCurrentTime(): (t: real)
      reads this
    {
      incr
    }

    method EnableScroll()
      modifies this`isScrollEnabled
      ensures isScrollEnabled
    {
      isScrollEnabled := true;
    }

    method DisableScroll()
      modifies this`isScrollEnabled
      ensures !isScrollEnabled
    {
      isScrollEnabled := false;
    }

    /** Observer onChange: ignored while disabled, otherwise retargets deltaTo with the hard-coded divisor. */
    method OnChange(deltaY: real, eventType: string)
      modifies this`deltaTarget
      ensures deltaTarget == if isScrollEnabled then InfiniteDeltaTarget(deltaY, eventType) else old(deltaTarget)
    {
      if !isScrollEnabled {
        return;
      }
      var divider := InfiniteDivisor(eventType);
      deltaTarget := deltaY / divider;
    }

    /** Observer onStop: ignored while disabled, otherwise the smoother decays to 0. */
    method OnStop()
      modifies this`deltaTarget
      ensures deltaTarget == if isScrollEnabled then 0.0 else old(deltaTarget)
    {
      if !isScrollEnabled {
        return;
      }
      deltaTarget := 0.0;
    }

    /** One onUpdate of the animateToTime tween: the position is overwritten, unclamped. */
    method AnimateFrame(value: real)
      modifies this`incr
      ensures incr == value
    {
      incr := value;
    }
  }

  /**
   * initScrollImagesInfinite: no session when the component is missing, has
   * no `.scroll_image` elements, or has no media.
   */
  method InitScrollImagesInfinite(component: Option<InfiniteComponent>, scrollSensitivity: Sensitivity)
    returns (s: InfiniteSession?)
    ensures s == null <==>
      component.None? || component.value.imageCount == 0 || |component.value.medias| == 0
    ensures s != null ==>
      && fresh(s) && s.Valid() && s.imageCount == component.value.imageCount
      && s.medias == component.value.medias && s.zIndex == s.imageCount
  {
    if component.None? || component.value.imageCount == 0 || |component.value.medias| == 0 {
      return null;
    }
    s := new InfiniteSession(component.value.imageCount, component.value.medias, scrollSensitivity);
  }
}
