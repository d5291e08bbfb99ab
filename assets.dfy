/**
 * Media collection and asset prefetching of src/scrollImages.js: which
 * `.scroll_image` elements become media items, the three preload tiers, the
 * settle-always image preloader and the strictly sequential video loader.
 * Network loads are represented by oracles: whether an image loads, and a
 * video's readiness as seen by preloadVideo.
 */
module Assets {
  import opened Optional

  /**
   * A `.scroll_image` element by its tag. `src` is the image's src attribute,
   * with "" standing for an absent or empty attribute (both are falsy).
   */
  datatype Element = Img(src: string) | Video | Other

  /** A collected media item; `element` is its position among the `.scroll_image` elements. */
  datatype Media = Image(src: string, element: nat) | VideoMedia(element: nat)

  /** Only images with a src and videos are collected. */
  predicate Collectible(e: Element)
  {
    (e.Img? && e.src != "") || e.Video?
  }

  /** The item (if any) the collection loop pushes for element `e` at position `k`. */
  function ItemFor(e: Element, k: nat): seq<Media>
  {
    match e
    case Img(src) => if src != "" then [Image(src, k)] else []
    case Video => [VideoMedia(k)]
    case Other => []
  }

  /** The media list after the forEach over `elements`, in document order. */
  function MediaOf(elements: seq<Element>): (r: seq<Media>)
    ensures |r| <= |elements|
    ensures forall j :: 0 <= j < |r| ==> r[j].element < |elements|
    decreases |elements|
  {
    if |elements| == 0 then []
    else MediaOf(elements[..|elements| - 1]) + ItemFor(elements[|elements| - 1], |elements| - 1)
  }

  /** The element a media item stands for has the item's kind (and src). */
  predicate Describes(elements: seq<Element>, m: Media)
  {
    m.element < |elements| &&
    match m
    case Image(src, k) => elements[k] == Img(src) && src != ""
    case VideoMedia(k) => elements[k] == Video
  }

  /** The media-collection loop over the `.scroll_image` elements. */
  method CollectMedia(elements: seq<Element>) returns (medias: seq<Media>)
    ensures medias == MediaOf(elements)
  {
    medias := [];
    var i := 0;
    while i < |elements|
      invariant 0 <= i <= |elements|
      invariant medias == MediaOf(elements[..i])
    {
      assert elements[..i + 1][..i] == elements[..i];
      medias := medias + ItemFor(elements[i], i);
      i := i + 1;
    }
    assert elements[..i] == elements;
  }

  /**
   * Soundness and order: every collected item describes its element, and
   * items follow document order without repeats.
   */
  lemma {:induction false} MediaOfSound(elements: seq<Element>)
    ensures forall j :: 0 <= j < |MediaOf(elements)| ==> Describes(elements, MediaOf(elements)[j])
    ensures forall i, j :: 0 <= i < j < |MediaOf(elements)| ==>
      MediaOf(elements)[i].element < MediaOf(elements)[j].element
    decreases |elements|
  {
    if |elements| > 0 {
      var n := |elements| - 1;
      var prefix := elements[..n];
      MediaOfSound(prefix);
      var ms := MediaOf(elements);
      assert ms == MediaOf(prefix) + ItemFor(elements[n], n);
      forall j | 0 <= j < |ms| ensures Describes(elements, ms[j]) {
        if j < |MediaOf(prefix)| {
          assert ms[j] == MediaOf(prefix)[j];
          assert Describes(prefix, ms[j]);
        }
      }
    }
  }

  /**
   * At most one item per element, and one for every element exactly when
   * every element is an image with a src or a video.
   */
  lemma {:induction false} MediaOfLength(elements: seq<Element>)
    ensures |MediaOf(elements)| <= |elements|
    ensures |MediaOf(elements)| == |elements|
        <==> forall k :: 0 <= k < |elements| ==> Collectible(elements[k])
    decreases |elements|
  {
    if |elements| > 0 {
      var n := |elements| - 1;
      var prefix := elements[..n];
      MediaOfLength(prefix);
      assert |ItemFor(elements[n], n)| == if Collectible(elements[n]) then 1 else 0;
      assert forall k :: 0 <= k < n ==> prefix[k] == elements[k];
      if |MediaOf(elements)| == |elements| {
        assert |MediaOf(prefix)| == n;
      }
    }
  }

  /** Completeness: every image with a src and every video is collected. */
  lemma {:induction false} MediaOfComplete(elements: seq<Element>, k: nat)
    requires k < |elements| && Collectible(elements[k])
    ensures exists j :: 0 <= j < |MediaOf(elements)| && MediaOf(elements)[j].element == k
    decreases |elements|
  {
    var n := |elements| - 1;
    var prefix := elements[..n];
    var ms := MediaOf(elements);
    assert ms == MediaOf(prefix) + ItemFor(elements[n], n);
    if k == n {
      assert ms[|MediaOf(prefix)|].element == k;
    } else {
      MediaOfComplete(prefix, k);
      var j :| 0 <= j < |MediaOf(prefix)| && MediaOf(prefix)[j].element == k;
      assert ms[j] == MediaOf(prefix)[j];
    }
  }

  // ---- preload tiers ------------------------------------------------------

  /** `medias.filter((m) => m.type === "image")` */
  function Images(ms: seq<Media>): (r: seq<Media>)
    ensures forall k :: 0 <= k < |r| ==> r[k].Image? && r[k] in ms
    ensures |r| <= |ms|
  {
    if |ms| == 0 then [] else (if ms[0].Image? then [ms[0]] else []) + Images(ms[1..])
  }

  /** `medias.filter((m) => m.type === "video")` */
  function Videos(ms: seq<Media>): (r: seq<Media>)
    ensures forall k :: 0 <= k < |r| ==> r[k].VideoMedia? && r[k] in ms
    ensures |r| <= |ms|
  {
    if |ms| == 0 then [] else (if ms[0].VideoMedia? then [ms[0]] else []) + Videos(ms[1..])
  }

  function MinNat(a: nat, b: nat): nat { if a <= b then a else b }

  /** Phase 1: the images among the first `count` media (`slice(0, count)`). */
  function InitialTier(ms: seq<Media>, count: nat): (r: seq<Media>)
    ensures |r| <= count && |r| <= |ms|
    ensures forall k :: 0 <= k < |r| ==> r[k].Image? && r[k] in ms[..MinNat(count, |ms|)]
  {
    Images(ms[..MinNat(count, |ms|)])
  }

  /** Phase 2, parallel part: the images after the first `count` media (`slice(count)`). */
  function RemainingTier(ms: seq<Media>, count: nat): (r: seq<Media>)
    ensures |r| <= |ms| - MinNat(count, |ms|)
    ensures forall k :: 0 <= k < |r| ==> r[k].Image? && r[k] in ms[MinNat(count, |ms|)..]
  {
    Images(ms[MinNat(count, |ms|)..])
  }

  /** Phase 2, sequential part: every video, including those among the first `count`. */
  function VideoTier(ms: seq<Media>): (r: seq<Media>)
    ensures forall k :: 0 <= k < |r| ==> r[k].VideoMedia? && r[k] in ms
  {
    Videos(ms)
  }

  lemma {:induction false} ImagesAppend(a: seq<Media>, b: seq<Media>)
    ensures Images(a + b) == Images(a) + Images(b)
    decreases |a|
  {
    if |a| > 0 {
      var head := if a[0].Image? then [a[0]] else [];
      assert (a + b)[0] == a[0];
      assert (a + b)[1..] == a[1..] + b;
      assert Images(a + b) == head + Images(a[1..] + b);
      ImagesAppend(a[1..], b);
      assert Images(a) == head + Images(a[1..]);
    } else {
      assert a + b == b;
    }
  }

  lemma {:induction false} SplitByKind(ms: seq<Media>)
    ensures multiset(Images(ms)) + multiset(Videos(ms)) == multiset(ms)
    decreases |ms|
  {
    if |ms| > 0 {
      var rest := ms[1..];
      SplitByKind(rest);
      assert ms == [ms[0]] + rest;
      if ms[0].VideoMedia? {
        assert Images(ms) == Images(rest);
        assert Videos(ms) == [ms[0]] + Videos(rest);
      } else {
        assert Images(ms) == [ms[0]] + Images(rest);
        assert Videos(ms) == Videos(rest);
      }
    }
  }

  /**
   * The tiers partition the media: every item is in exactly one tier, counted
   * with multiplicity, and the initial tier never exceeds `count`.
   */
  lemma TiersPartition(ms: seq<Media>, count: nat)
    ensures multiset(InitialTier(ms, count)) + multiset(RemainingTier(ms, count))
            + multiset(VideoTier(ms)) == multiset(ms)
    ensures |InitialTier(ms, count)| <= count
  {
    var c := MinNat(count, |ms|);
    assert ms[..c] + ms[c..] == ms;
    ImagesAppend(ms[..c], ms[c..]);
    SplitByKind(ms);
  }

  /** The source of each image in a tier, in order (`imageAssets.map((m) => m.src)`). */
  function Sources(images: seq<Media>): seq<string>
    requires forall k :: 0 <= k < |images| ==> images[k].Image?
  {
    if |images| == 0 then [] else [images[0].src] + Sources(images[1..])
  }

  /** Sources keeps the images' order: the k-th source is the k-th image's. */
  lemma {:induction false} SourcesInOrder(images: seq<Media>)
    requires forall k :: 0 <= k < |images| ==> images[k].Image?
    ensures |Sources(images)| == |images|
    ensures forall k :: 0 <= k < |images| ==> Sources(images)[k] == images[k].src
  {
    if |images| > 0 {
      SourcesInOrder(images[1..]);
      assert forall k :: 1 <= k < |images| ==> images[1..][k - 1] == images[k];
    }
  }

  /**
   * preloadImages: every source settles; a failure settles with no image
   * instead of rejecting, so the awaiting phase always completes.
   */
  function PreloadImages(srcs: seq<string>, loads: string -> bool): (settled: seq<Option<string>>)
    ensures |settled| == |srcs|
    ensures forall k :: 0 <= k < |srcs| ==>
      settled[k] == (if loads(srcs[k]) then Some(srcs[k]) else None)
  {
    if |srcs| == 0 then []
    else [if loads(srcs[0]) then Some(srcs[0]) else None] + PreloadImages(srcs[1..], loads)
  }

  // ---- sequential video loading ---------------------------------------------

  /** Milliseconds preloadVideo waits at most for a video that is not yet playable. */
  const VideoTimeout: real := 5000.0
  /** readyState HAVE_FUTURE_DATA: enough data to resolve immediately. */
  const HaveFutureData: int := 3

  type Delay = d: real | d >= 0.0

  /**
   * What preloadVideo observes of a video after load(): its readyState, and
   * after how many milliseconds `canplaythrough` fires (None: never).
   */
  datatype Readiness = Readiness(readyState: int, canPlayThroughAfter: Option<Delay>)

  /** How long preloadVideo takes to resolve: the earlier of the event and the timeout. */
  function ReadyDelay(r: Readiness): (d: real)
    ensures 0.0 <= d <= VideoTimeout
    ensures r.readyState >= HaveFutureData ==> d == 0.0
    ensures r.readyState < HaveFutureData && r.canPlayThroughAfter.None? ==> d == VideoTimeout
    ensures r.readyState < HaveFutureData && r.canPlayThroughAfter.Some? ==>
      d <= r.canPlayThroughAfter.value && (d == r.canPlayThroughAfter.value || d == VideoTimeout)
  {
    if r.readyState >= HaveFutureData then 0.0
    else match r.canPlayThroughAfter
      case None => VideoTimeout
      case Some(t) => if t <= VideoTimeout then t else VideoTimeout
  }

  /** One video's load: when its sources were activated and when preloadVideo resolved. */
  datatype VideoLoad = VideoLoad(video: Media, start: real, ready: real)

  /**
   * loadVideoSequentially(index) started at time `now`: load video `index`,
   * wait for it, then continue with `index + 1`.
   */
  function LoadVideoSequentially(videos: seq<Media>, index: nat, now: real,
                                 readiness: nat -> Readiness): (loads: seq<VideoLoad>)
    ensures |loads| == if index <= |videos| then |videos| - index else 0
    ensures |loads| > 0 ==> loads[0].video == videos[index] && loads[0].start == now
    decreases |videos| - index
  {
    if index >= |videos| then []
    else
      var ready := now + ReadyDelay(readiness(videos[index].element));
      [VideoLoad(videos[index], now, ready)]
        + LoadVideoSequentially(videos, index + 1, ready, readiness)
  }

  /**
   * The loader visits the videos from `index` on, once each and in order; the
   * first starts at `now`, each next one starts exactly when the previous one
   * resolved, and each wait lasts at most the timeout.
   */
  lemma {:induction false} SequentialSchedule(videos: seq<Media>, index: nat, now: real,
                                              readiness: nat -> Readiness)
    requires index <= |videos|
    ensures var s := LoadVideoSequentially(videos, index, now, readiness);
      && |s| == |videos| - index
      && (|s| > 0 ==> s[0].start == now)
      && (forall k :: 0 <= k < |s| ==> s[k].video == videos[index + k])
      && (forall k :: 0 <= k < |s| ==>
            s[k].ready == s[k].start + ReadyDelay(readiness(videos[index + k].element)))
      && (forall k :: 0 <= k < |s| ==> s[k].start <= s[k].ready <= s[k].start + VideoTimeout)
      && (forall k :: 0 <= k < |s| - 1 ==> s[k + 1].start == s[k].ready)
    decreases |videos| - index
  {
    if index < |videos| {
      var ready := now + ReadyDelay(readiness(videos[index].element));
      SequentialSchedule(videos, index + 1, ready, readiness);
      var s := LoadVideoSequentially(videos, index, now, readiness);
      var rest := LoadVideoSequentially(videos, index + 1, ready, readiness);
      assert s == [VideoLoad(videos[index], now, ready)] + rest;
      forall k | 1 <= k < |s| ensures s[k] == rest[k - 1] { }
    }
  }

  /** Video j never starts before every earlier video has resolved. */
  lemma {:induction false} StartsAfterEarlierReady(videos: seq<Media>, now: real,
                                                   readiness: nat -> Readiness, i: nat, j: nat)
    requires i < j < |videos|
    ensures var s := LoadVideoSequentially(videos, 0, now, readiness);
      |s| == |videos| && s[i].ready <= s[j].start
    decreases j - i
  {
    SequentialSchedule(videos, 0, now, readiness);
    var s := LoadVideoSequentially(videos, 0, now, readiness);
    if j > i + 1 {
      StartsAfterEarlierReady(videos, now, readiness, i, j - 1);
    }
  }

  /** All videos resolve within one timeout per video of the loader's start. */
  lemma {:induction false} ScheduleBounded(videos: seq<Media>, index: nat, now: real,
                                           readiness: nat -> Readiness)
    requires index <= |videos|
    ensures forall v :: v in LoadVideoSequentially(videos, index, now, readiness) ==>
      now <= v.start && v.ready <= now + (|videos| - index) as real * VideoTimeout
    decreases |videos| - index
  {
    if index < |videos| {
      var ready := now + ReadyDelay(readiness(videos[index].element));
      ScheduleBounded(videos, index + 1, ready, readiness);
      assert ready + (|videos| - (index + 1)) as real * VideoTimeout
          <= now + (|videos| - index) as real * VideoTimeout;
    }
  }
}
