/**
 * The finite scroll session of src/scrollImages.js (`initScrollImages`):
 * one mutable timeline position `incr`, integrated from the smoothed delta
 * on every tick and clamped to [0, totalDuration], and the state derived
 * from it: heading styles, video play/pause, the component's fade and the
 * form's visibility. The GSAP timeline, its easing and its render are not
 * modelled; each tick's eased delta is an input.
 */
module ScrollImages {
  import opened Optional
  import opened Timeline
  import opened Assets
  import opened ScrollInput

  /** The session's settings (defaults merged with the caller's config). */
  datatype Config = Config(
    headingAnimationProgress: seq<real>,
    staggerTime: real,
    animationDuration: real,
    initialIncr: real,
    initialPreloadCount: nat,
    scrollSensitivity: Sensitivity,
    fadeOutStart: real)

  const DefaultConfig := Config([10.0, 20.0, 50.0, 70.0, 90.0], 2.5, 2.0, 0.0, 5,
                                DefaultSensitivity, 0.95)

  /** Settings under which every division the session performs is defined. */
  predicate WellFormed(c: Config)
  {
    && c.staggerTime >= 0.0
    && c.animationDuration > 0.0
    && PositiveSensitivity(c.scrollSensitivity)
    && c.fadeOutStart < 1.0
  }

  lemma DefaultConfigWellFormed()
    ensures WellFormed(DefaultConfig)
  {
  }

  /** The `.scroll_images_component` subtree: its `.scroll_image` elements and its number of headings. */
  datatype Component = Component(images: seq<Element>, headingCount: nat)

  class ScrollSession {
    /** realImages, the collected medias and the settings, fixed at creation. */
    const elements: seq<Element>
    const headingCount: nat
    const medias: seq<Media>
    const config: Config
    const totalDuration: real
    /** Whether `.form_container` exists. */
    const hasFormWrapper: bool

    /** Timeline position. */
    var incr: real
    /** The last target handed to deltaTo. */
    var deltaTarget: real
    var isScrollEnabled: bool
    /** The stagger onStart counter and each element's style.zIndex (0 until it starts). */
    var zIndex: int
    var zOrder: seq<int>
    var headings: seq<HeadingStyle>
    /** Per element: whether it is paused; only videos are ever played. */
    var paused: seq<bool>
    /** Per element: whether its video sources were activated and load() called. */
    var activated: seq<bool>
    /** The sequential video loader's record, in the order loads were started. */
    var videoLoads: seq<VideoLoad>
    /** Image sources handed to preloadImages, in request order. */
    var imageRequests: seq<string>
    /** The component's opacity; None until the first tick sets it. */
    var componentOpacity: Option<real>
    /** Whether the form wrapper's target opacity is 1. */
    var formVisible: bool

    /** What holds of the fields fixed at creation. */
    ghost predicate Settled()
    {
      && WellFormed(config)
      && medias == MediaOf(elements)
      && |medias| >= 1
      && (forall j :: 0 <= j < |medias| ==> Describes(elements, medias[j]))
      && totalDuration == TotalDuration(|medias|, config.staggerTime, config.animationDuration)
      && totalDuration > 0.0
    }

    ghost predicate Valid()
      reads this
    {
      && Settled()
      && |headings| == headingCount
      && |zOrder| == |elements|
      && |paused| == |elements|
      && |activated| == |elements|
    }

    /** The style heading k must have at the current position. */
    function HeadingFor(k: nat): HeadingStyle
      reads this
      requires k < |config.headingAnimationProgress|
    {
      HeadingAt(incr, TriggerTime(config.headingAnimationProgress[k], totalDuration))
    }

    /** Whether element `index` should be playing at the current position. */
    predicate ShouldBeActive(index: nat)
      reads this
    {
      VideoShouldBeActive(index, incr, config.staggerTime, config.animationDuration)
    }

    /**
     * The component subtree has been found and holds media. The position
     * starts at initialIncr, scroll is disabled, the headings have had their
     * first update, and a leading video has been activated and asked to play.
     */
    constructor (elements: seq<Element>, headingCount: nat, hasFormWrapper: bool,
                 config: Config, firstPlayAccepted: bool)
      requires WellFormed(config)
      requires |MediaOf(elements)| >= 1
      ensures Valid()
      ensures this.elements == elements && this.headingCount == headingCount
      ensures this.hasFormWrapper == hasFormWrapper && this.config == config
      ensures incr == config.initialIncr && deltaTarget == 0.0 && !isScrollEnabled
      ensures zIndex == 0 && (forall i :: 0 <= i < |elements| ==> zOrder[i] == 0)
      ensures forall k :: 0 <= k < headingCount ==>
        headings[k] == if k < |config.headingAnimationProgress| then HeadingFor(k) else HiddenBelow
      ensures forall i :: 0 <= i < |elements| ==>
        paused[i] == !(i == 0 && elements[0] == Video && firstPlayAccepted)
      ensures forall i :: 0 <= i < |elements| ==> activated[i] == (i == 0 && elements[0] == Video)
      ensures videoLoads == [] && imageRequests == []
      ensures componentOpacity == None && !formVisible
    {
      this.elements := elements;
      this.headingCount := headingCount;
      this.hasFormWrapper := hasFormWrapper;
      this.config := config;
      var ms := CollectMedia(elements);
      MediaOfSound(elements);
      medias := ms;
      var total := TotalDuration(|ms|, config.staggerTime, config.animationDuration);
      assert StartTime(|ms| - 1, config.staggerTime) >= 0.0;
      totalDuration := total;
      incr := config.initialIncr;
      deltaTarget := 0.0;
      isScrollEnabled := false;
      zIndex := 0;
      zOrder := seq(|elements|, _ => 0);
      headings := seq(headingCount, _ => HiddenBelow);
      var leadingVideo := |elements| > 0 && elements[0] == Video;
      paused := seq(|elements|, i => !(i == 0 && leadingVideo && firstPlayAccepted));
      activated := seq(|elements|, i => i == 0 && leadingVideo);
      videoLoads := [];
      imageRequests := [];
      componentOpacity := None;
      formVisible := false;
      new;
      UpdateHeadings();
    }

    /** updateHeadingsBasedOnIncr: headings with a progress entry follow the position; the rest keep their style. */
    method UpdateHeadings()
      requires Valid()
      modifies this`headings
      ensures Valid()
      ensures forall k :: 0 <= k < headingCount ==>
        headings[k] == if k < |config.headingAnimationProgress| then HeadingFor(k) else old(headings[k])
    {
      var k := 0;
      while k < headingCount
        invariant 0 <= k <= headingCount && |headings| == headingCount
        invariant forall j :: 0 <= j < k ==>
          headings[j] == if j < |config.headingAnimationProgress| then HeadingFor(j) else old(headings[j])
        invariant forall j :: k <= j < headingCount ==> headings[j] == old(headings[j])
      {
        if k < |config.headingAnimationProgress| {
          headings := headings[k := HeadingFor(k)];
        }
        k := k + 1;
      }
    }

    /**
     * updateVideoPlayback: a paused video inside its window is asked to play
     * (and plays if `accepted` contains it); a playing video outside its
     * window is paused; other elements are untouched.
     */
    method UpdateVideoPlayback(accepted: set<nat>) returns (playRequested: set<nat>, pauseRequested: set<nat>)
      requires Valid()
      modifies this`paused
      ensures Valid()
      ensures forall i :: i in playRequested <==>
        0 <= i < |elements| && elements[i] == Video && ShouldBeActive(i) && old(paused[i])
      ensures forall i :: i in pauseRequested <==>
        0 <= i < |elements| && elements[i] == Video && !ShouldBeActive(i) && !old(paused[i])
      ensures forall i :: 0 <= i < |elements| ==>
        paused[i] == if elements[i] != Video then old(paused[i])
                     else if ShouldBeActive(i) then old(paused[i]) && i !in accepted
                     else true
    {
      playRequested, pauseRequested := {}, {};
      var i := 0;
      while i < |elements|
        invariant 0 <= i <= |elements| && |paused| == |elements|
        invariant forall j :: j in playRequested <==>
          0 <= j < i && elements[j] == Video && ShouldBeActive(j) && old(paused[j])
        invariant forall j :: j in pauseRequested <==>
          0 <= j < i && elements[j] == Video && !ShouldBeActive(j) && !old(paused[j])
        invariant forall j :: 0 <= j < i ==>
          paused[j] == if elements[j] != Video then old(paused[j])
                       else if ShouldBeActive(j) then old(paused[j]) && j !in accepted
                       else true
        invariant forall j :: i <= j < |elements| ==> paused[j] == old(paused[j])
      {
        if elements[i] == Video {
          if ShouldBeActive(i) {
            if paused[i] {
              playRequested := playRequested + {i};
              paused := paused[i := i !in accepted];
            }
          } else if !paused[i] {
            pauseRequested := pauseRequested + {i};
            paused := paused[i := true];
          }
        }
        i := i + 1;
      }
    }

    /**
     * The deltaTo onUpdate tick with eased delta `value`: add, clamp to the
     * timeline, then refresh headings, videos, the fade and the form.
     */
    method OnDeltaUpdate(value: real, accepted: set<nat>)
      requires Valid()
      modifies this`incr, this`headings, this`paused, this`componentOpacity, this`formVisible
      ensures Valid()
      ensures incr == ClampToTimeline(old(incr) + value, totalDuration)
      ensures incr == Integrate(old(incr), [value], totalDuration)
      ensures 0.0 <= incr <= totalDuration
      ensures forall k :: 0 <= k < headingCount ==>
        headings[k] == if k < |config.headingAnimationProgress| then HeadingFor(k) else old(headings[k])
      ensures forall i :: 0 <= i < |elements| ==>
        paused[i] == if elements[i] != Video then old(paused[i])
                     else if ShouldBeActive(i) then old(paused[i]) && i !in accepted
                     else true
      ensures componentOpacity == Some(ComponentOpacity(GetProgress(), config.fadeOutStart))
      ensures formVisible == if hasFormWrapper then FormShown(GetProgress()) else old(formVisible)
    {
      incr := ClampToTimeline(incr + value, totalDuration);
      UpdateHeadings();
      var _, _ := UpdateVideoPlayback(accepted);
      var progress := incr / totalDuration;
      componentOpacity := Some(ComponentOpacity(progress, config.fadeOutStart));
      if hasFormWrapper {
        formVisible := FormShown(progress);
      }
    }

    /** getProgress: the position as a fraction of the timeline. */
    function GetProgress(): (p: real)
      reads this
      requires Valid()
      ensures p * totalDuration == incr
      ensures 0.0 <= incr <= totalDuration ==> 0.0 <= p <= 1.0
    {
      FractionBounds(incr, totalDuration);
      incr / totalDuration
    }

    /** After a tick the form is shown exactly when the position has reached the end. */
    lemma FormShownAtEnd()
      requires Valid() && 0.0 <= incr <= totalDuration
      ensures FormShown(GetProgress()) <==> incr == totalDuration
    {
      FractionBounds(incr, totalDuration);
    }

    /** getTotalDuration: the length of the timeline, which is positive. */
    function GetTotalDuration(): (d: real)
      requires Settled()
      ensures d == TotalDuration(|medias|, config.staggerTime, config.animationDuration)
      ensures d > 0.0
    {
      totalDuration
    }

    /** getCurrentTime: the position, which is the progress scaled back to the timeline. */
    function GetCurrentTime(): (t: real)
      reads this
      requires Valid()
      ensures t == GetProgress() * GetTotalDuration()
    {
      incr
    }

    method EnableScroll()
      modifies this`isScrollEnabled
      ensures isScrollEnabled
    {
      isScrollEnabled := true;
    }

    method DisableScroll()
      modifies this`isScrollEnabled
      ensures !isScrollEnabled
    {
      isScrollEnabled := false;
    }

    /** Observer onChange: ignored while disabled, otherwise retargets deltaTo. */
    method OnChange(deltaY: real, eventType: string)
      requires Valid()
      modifies this`deltaTarget
      ensures deltaTarget == if isScrollEnabled
        then DeltaTarget(deltaY, eventType, config.scrollSensitivity) else old(deltaTarget)
    {
      if !isScrollEnabled {
        return;
      }
      deltaTarget := DeltaTarget(deltaY, eventType, config.scrollSensitivity);
    }

    /** Observer onStop: ignored while disabled, otherwise the smoother decays to 0. */
    method OnStop()
      modifies this`deltaTarget
      ensures deltaTarget == if isScrollEnabled then 0.0 else old(deltaTarget)
    {
      if !isScrollEnabled {
        return;
      }
      deltaTarget := 0.0;
    }

    /** The stagger onStart of element k: bring it to the front. */
    method OnStaggerStart(k: nat)
      requires Valid() && k < |elements|
      modifies this`zIndex, this`zOrder
      ensures Valid()
      ensures zIndex == old(zIndex) + 1
      ensures zOrder == old(zOrder)[k := zIndex]
    {
      zIndex := zIndex + 1;
      zOrder := zOrder[k := zIndex];
    }

    /** animateToProgress: the time the tween heads for. */
    function AnimationTarget(targetProgress: real): (targetTime: real)
      reads this
      requires Valid()
      ensures targetTime / totalDuration == targetProgress
    {
      targetProgress * totalDuration
    }

    /**
     * One onUpdate of the animateToProgress tween, at tween value `value`:
     * the position is overwritten without a clamp and only the headings
     * follow; videos, fade and form are left as they were.
     */
    method AnimateFrame(value: real)
      requires Valid()
      modifies this`incr, this`headings
      ensures Valid()
      ensures incr == value
      ensures forall k :: 0 <= k < headingCount ==>
        headings[k] == if k < |config.headingAnimationProgress| then HeadingFor(k) else old(headings[k])
    {
      incr := value;
      UpdateHeadings();
    }

    /**
     * preloadInitialAssets: await the initial images, whose requests all
     * settle (with the image or, on failure, with nothing) as `loads` says,
     * then start phase 2 at `settledAt`.
     */
    method PreloadInitialAssets(settledAt: real, loads: string -> bool, readiness: nat -> Readiness)
      returns (settled: seq<Option<string>>, done: bool)
      requires Valid()
      modifies this`imageRequests, this`activated, this`paused, this`videoLoads
      ensures Valid() && done
      ensures settled == PreloadImages(Sources(InitialTier(medias, config.initialPreloadCount)), loads)
      ensures imageRequests == old(imageRequests)
        + Sources(InitialTier(medias, config.initialPreloadCount))
        + Sources(RemainingTier(medias, config.initialPreloadCount))
      ensures videoLoads == old(videoLoads)
        + Assets.LoadVideoSequentially(VideoTier(medias), 0, settledAt, readiness)
      ensures forall e :: 0 <= e < |elements| ==>
        activated[e] == (old(activated[e]) || VideoMedia(e) in VideoTier(medias))
      ensures forall e :: 0 <= e < |elements| ==>
        paused[e] == (old(paused[e]) || VideoMedia(e) in VideoTier(medias))
    {
      var initialSources := Sources(InitialTier(medias, config.initialPreloadCount));
      imageRequests := imageRequests + initialSources;
      settled := PreloadImages(initialSources, loads);
      PreloadRemainingAssets(settledAt, readiness);
      done := true;
    }

    /** preloadRemainingAssets: request the remaining images and start the video chain at `now`. */
    method PreloadRemainingAssets(now: real, readiness: nat -> Readiness)
      requires Valid()
      modifies this`imageRequests, this`activated, this`paused, this`videoLoads
      ensures Valid()
      ensures imageRequests == old(imageRequests) + Sources(RemainingTier(medias, config.initialPreloadCount))
      ensures videoLoads == old(videoLoads)
        + Assets.LoadVideoSequentially(VideoTier(medias), 0, now, readiness)
      ensures forall e :: 0 <= e < |elements| ==>
        activated[e] == (old(activated[e]) || VideoMedia(e) in VideoTier(medias))
      ensures forall e :: 0 <= e < |elements| ==>
        paused[e] == (old(paused[e]) || VideoMedia(e) in VideoTier(medias))
    {
      imageRequests := imageRequests + Sources(RemainingTier(medias, config.initialPreloadCount));
      if |VideoTier(medias)| > 0 {
        LoadVideoSequentially(0, now, readiness);
        assert VideoTier(medias)[0..] == VideoTier(medias);
      } else {
        assert Assets.LoadVideoSequentially(VideoTier(medias), 0, now, readiness) == [];
      }
    }

    /**
     * loadVideoSequentially(index) started at `now`: activate video `index`
     * and call load() on it, which stops any playback of the element (the
     * media element load algorithm leaves it paused), wait until
     * preloadVideo resolves, then go on with `index + 1`.
     */
    method LoadVideoSequentially(index: nat, now: real, readiness: nat -> Readiness)
      requires |activated| == |elements| && |paused| == |elements| && index <= |VideoTier(medias)|
      requires forall j :: 0 <= j < |medias| ==> Describes(elements, medias[j])
      modifies this`activated, this`paused, this`videoLoads
      ensures |activated| == |elements| && |paused| == |elements|
      ensures videoLoads == old(videoLoads)
        + Assets.LoadVideoSequentially(VideoTier(medias), index, now, readiness)
      ensures forall e :: 0 <= e < |elements| ==>
        activated[e] == (old(activated[e]) || VideoMedia(e) in VideoTier(medias)[index..])
      ensures forall e :: 0 <= e < |elements| ==>
        paused[e] == (old(paused[e]) || VideoMedia(e) in VideoTier(medias)[index..])
      decreases |VideoTier(medias)| - index
    {
      var videos := VideoTier(medias);
      if index == |videos| {
        assert Assets.LoadVideoSequentially(videos, index, now, readiness) == [];
        assert videoLoads + [] == videoLoads;
        return;
      }
      var v := videos[index];
      VideoOfTier(elements, medias, index);
      ghost var before, pausedBefore, loadsBefore := activated, paused, videoLoads;
      activated := activated[v.element := true];
      paused := paused[v.element := true];
      ghost var mid, pausedMid := activated, paused;
      var ready := now + ReadyDelay(readiness(v.element));
      videoLoads := videoLoads + [VideoLoad(v, now, ready)];
      ghost var head := [VideoLoad(v, now, ready)];
      LoadVideoSequentially(index + 1, ready, readiness);
      ghost var rest := Assets.LoadVideoSequentially(videos, index + 1, ready, readiness);
      ScheduleStep(videos, index, now, readiness);
      assert videoLoads == (loadsBefore + head) + rest;
      assert videoLoads == loadsBefore + (head + rest);
      ActivateStep(before, mid, activated, videos, index);
      ActivateStep(pausedBefore, pausedMid, paused, videos, index);
    }
  }

  /**
   * The timeline is as long as the scale tweens of all `.scroll_image`
   * elements only when every element is collected: each element is
   * staggered by its own index, while totalDuration counts the media. With a
   * positive stagger, an element that is not collected shortens the timeline
   * below the end of the last element's tween.
   */
  lemma TimelineCoversElements(elements: seq<Element>, staggerTime: real, animationDuration: real)
    requires |MediaOf(elements)| >= 1 && staggerTime > 0.0
    ensures TotalDuration(|MediaOf(elements)|, staggerTime, animationDuration)
         <= StartTime(|elements| - 1, staggerTime) + animationDuration
    ensures TotalDuration(|MediaOf(elements)|, staggerTime, animationDuration)
         == StartTime(|elements| - 1, staggerTime) + animationDuration
        <==> forall k :: 0 <= k < |elements| ==> Collectible(elements[k])
  {
    MediaOfLength(elements);
    LaterEndsLater(|MediaOf(elements)|, |elements|, staggerTime, animationDuration);
  }

  /** With a positive stagger, the tween of a later index ends strictly later. */
  lemma LaterEndsLater(m: nat, n: nat, staggerTime: real, animationDuration: real)
    requires 1 <= m <= n && staggerTime > 0.0
    ensures StartTime(m - 1, staggerTime) + animationDuration <= StartTime(n - 1, staggerTime) + animationDuration
    ensures StartTime(m - 1, staggerTime) == StartTime(n - 1, staggerTime) <==> m == n
  {
    assert StartTime(n - 1, staggerTime) - StartTime(m - 1, staggerTime) == (n - m) as real * staggerTime;
    if m < n {
      assert (n - m) as real * staggerTime > 0.0;
    }
  }

  /** Setting the head's flag and then those of the rest sets the flags of the whole suffix. */
  lemma ActivateStep(before: seq<bool>, mid: seq<bool>, after: seq<bool>, videos: seq<Media>, index: nat)
    requires index < |videos| && videos[index].VideoMedia? && videos[index].element < |before|
    requires mid == before[videos[index].element := true] && |after| == |before|
    requires forall e :: 0 <= e < |before| ==> after[e] == (mid[e] || VideoMedia(e) in videos[index + 1..])
    ensures forall e :: 0 <= e < |before| ==> after[e] == (before[e] || VideoMedia(e) in videos[index..])
  {
    forall e | 0 <= e < |before|
      ensures after[e] == (before[e] || VideoMedia(e) in videos[index..])
    {
      SuffixMembership(videos, index, VideoMedia(e));
    }
  }

  /** The video tier holds videos of the page, so each one names an element. */
  lemma VideoOfTier(elements: seq<Element>, medias: seq<Media>, index: nat)
    requires forall j :: 0 <= j < |medias| ==> Describes(elements, medias[j])
    requires index < |VideoTier(medias)|
    ensures VideoTier(medias)[index].VideoMedia?
    ensures VideoTier(medias)[index].element < |elements|
  {
    var v := VideoTier(medias)[index];
    assert v in medias;
    var j :| 0 <= j < |medias| && medias[j] == v;
    assert Describes(elements, medias[j]);
  }

  /** One step of the sequential loader: the head's load, then the rest from when it resolved. */
  lemma ScheduleStep(videos: seq<Media>, index: nat, now: real, readiness: nat -> Readiness)
    requires index < |videos|
    ensures var ready := now + ReadyDelay(readiness(videos[index].element));
      Assets.LoadVideoSequentially(videos, index, now, readiness)
        == [VideoLoad(videos[index], now, ready)] + Assets.LoadVideoSequentially(videos, index + 1, ready, readiness)
  {
  }

  /** An item is in a suffix iff it heads it or is in the suffix after it. */
  lemma SuffixMembership(ms: seq<Media>, index: nat, m: Media)
    requires index < |ms|
    ensures (m in ms[index..]) == (m == ms[index] || m in ms[index + 1..])
  {
    assert ms[index..] == [ms[index]] + ms[index + 1..];
  }

  /**
   * initScrollImages: no session when the component is missing, has no
   * `.scroll_image` elements, or yields no media.
   */
  method InitScrollImages(component: Option<Component>, hasFormWrapper: bool, config: Config,
                          firstPlayAccepted: bool) returns (s: ScrollSession?)
    requires WellFormed(config)
    ensures s == null <==>
      component.None? || |component.value.images| == 0 || |MediaOf(component.value.images)| == 0
    ensures s != null ==>
      && fresh(s) && s.Valid() && s.elements == component.value.images
      && s.config == config && s.incr == config.initialIncr && !s.isScrollEnabled
  {
    if component.None? {
      return null;
    }
    var images := component.value.images;
    if |images| == 0 {
      return null;
    }
    var medias := CollectMedia(images);
    if |medias| == 0 {
      return null;
    }
    s := new ScrollSession(images, component.value.headingCount, hasFormWrapper, config, firstPlayAccepted);
  }
}
