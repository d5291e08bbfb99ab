# Scroll-driven image sequence, form validation and font fitting — a Dafny model

This project models the logic of a small front-end bundle. It has three parts:

- **A finite scroll session** (`initScrollImages`). A stack of `.scroll_image` elements is played as one timeline whose length follows from the number of media. Each wheel or touch gesture passes through a per-device gate and moves a smoothed delta. On each tick the position `incr` is advanced and clamped to `[0, totalDuration]`. Everything else is derived from that position:
  - the fade phase of each heading;
  - which videos play;
  - the component's end fade;
  - whether the form is shown.

  Assets are fetched in three tiers: the initial images, the remaining images, and all videos. The videos load strictly one after the other.
- **An infinite session** (`initScrollImagesInfinite`). The position is unbounded. A fixed ring of image elements has its `data-index` and `src` rewritten whenever one of them repeats, using Euclidean `mod`, so that every element always shows a defined media entry.
- **Two form behaviours.**
  - The email validator trims the input, tests it against `/^[^\s@]+@[^\s@]+\.[^\s@]{2,}$/` and toggles the submit wrapper's `is-active` class.
  - The font fitter runs a 15-step bisection for the largest font size at which the value fits in 98% of the input's width.

How the files map to the source:

| file | module | source |
|---|---|---|
| `optional.dfy` | `Optional` | the `Option` datatype |
| `helpers.dfy` | `Helpers` | `mod`, and JavaScript's truncating `%` |
| `timeline.dfy` | `Timeline` | the pure arithmetic of scrollImages.js |
| `assets.dfy` | `Assets` | media collection, tiers and loaders |
| `scroll_input.dfy` | `ScrollInput` | the Observer gate's divisor |
| `scroll_images.dfy` | `ScrollImages` | the finite session, as a class |
| `scroll_images_infinite.dfy` | `ScrollImagesInfinite` | the infinite session, as a class |
| `form_validation.dfy` | `FormValidation` | trim, the pattern, and the wrapper flag |
| `form_type_size.dfy` | `FormTypeSize` | the bisection loop and its reference definition |

JavaScript numbers are Dafny `real` values, with no rounding. Indices and `mod` work on `int`, with `%` written out as JavaScript's truncated remainder. Several things are inputs or oracles:

- the DOM, modelled as sequences of element slots plus flags;
- GSAP's eased values;
- which element repeats;
- how a video's readiness evolves;
- play acceptance;
- the text-width measurement.

The initial preload tier holds the images among the first `initialPreloadCount` media (src/scrollImages.js:161-162). It can have fewer than `min(initialPreloadCount, imageCount)` entries. That happens exactly when a video is among the first `initialPreloadCount` media and an image comes after them (`Assets.InitialTier`).

## Model

| member | source | states |
|---|---|---|
| `Helpers.JsRem` | src/helpers.js:7 | JavaScript's `%`: the result has the dividend's sign, is smaller in magnitude than the divisor, and differs from the dividend by a multiple of it |
| `Helpers.Mod` | src/helpers.js:7 | for `m > 0` the result lies in `[0, m)` (for `m < 0`, in `(m, 0]`); it is congruent to `n` modulo `m` for every integer `n`, negative ones included |
| `Helpers.ModIsEuclidean` | src/helpers.js:7 | for `m > 0`, `mod(n, m)` is the Euclidean remainder of `n` by `m` |
| `Helpers.ModOfIndex` | src/helpers.js:7 | `mod(n, m) == n` whenever `0 <= n < m` |
| `Helpers.ModIdempotent` | src/helpers.js:7 | `mod(mod(n, m), m) == mod(n, m)` |
| `Helpers.ModOfMinusOne` | src/helpers.js:1-7 | the negative case the doc comment promises: `mod(-1, m) == m - 1` |
| `Helpers.ModPeriodic` | src/helpers.js:7 | adding any multiple of `m` to `n` leaves `mod(n, m)` unchanged |
| `Timeline.TotalDuration` | src/scrollImages.js:282-283 | for `n` collected media, the timeline ends when the scale tween of the element at index `n-1` ends (`(n-1)·stagger + duration`); with a non-negative stagger, no element at a lower index ends later |
| `Timeline.TotalDurationOfEight` | src/scrollImages.js:282-283 | 8 media with the default stagger 2.5 and duration 2 give 19.5 |
| `Timeline.ClampToTimeline` | src/scrollImages.js:387-388 | `max(0, min(x, total))`: the result is in `[0, total]`; it is `x` inside that range, 0 below it, `total` above it, and 0 when `total` is negative |
| `Timeline.ClampIdempotent` | src/scrollImages.js:388 | clamping a clamped position changes nothing |
| `Timeline.ClampMonotone` | src/scrollImages.js:385-388 | a larger sum never lands before a smaller one |
| `Timeline.Integrate` | src/scrollImages.js:384-390 | after any non-empty sequence of ticks, or from a position already on the timeline, the position lies in `[0, totalDuration]` |
| `Timeline.IntegrateAppend` | src/scrollImages.js:384-390 | feeding two batches of ticks one after the other ends where feeding them in one batch does, so successive ticks compose |
| `Timeline.IntegrateForward` | src/scrollImages.js:385-388 | non-negative deltas never move the position back, nor past the end |
| `Timeline.HeadingAt` | src/scrollImages.js:316-345 | a heading's style at a position: opacity in `[0, 1]` and y in `[-30, 30]`; before the fade-out y is `30·(1-opacity)`, from the fade-out on it is `-30·(1-opacity)` |
| `Timeline.HeadingVisibleWindow` | src/scrollImages.js:319-343 | a heading is visible at all exactly when its trigger `< incr <` trigger + 2.1 |
| `Timeline.HeadingOpaqueWindow` | src/scrollImages.js:323-329 | a heading is fully opaque exactly when trigger + 0.6 `<= incr <=` trigger + 1.5 |
| `Timeline.HeadingRestStates` | src/scrollImages.js:337-343 | before its trigger a heading is (0, 30); after its fade-out it is (0, -30) |
| `Timeline.HeadingFadeInIncreasing` | src/scrollImages.js:323-329 | during the fade-in, opacity strictly increases |
| `Timeline.HeadingFadeOutDecreasing` | src/scrollImages.js:330-336 | during the fade-out, opacity strictly decreases |
| `Timeline.HeadingOpacityLipschitz` | src/scrollImages.js:323-343 | opacity changes by at most `abs(a - b) / 0.6` between positions: the four phases join without a jump |
| `Timeline.VideoShouldBeActive` | src/scrollImages.js:355-361 | an element is active exactly when the position lies between its own start and the end of its successor's scale tween, in both directions |
| `Timeline.AtMostTwoActive` | src/scrollImages.js:355-361 | when the tween is no longer than the stagger (the defaults), two elements two or more places apart are never active together |
| `Timeline.ComponentOpacity` | src/scrollImages.js:399-408 | the opacity is 1 before `fadeOutStart`; from `fadeOutStart` on, `opacity·(1 - fadeOutStart) == 1 - progress`, the straight line from 1 down to 0 at progress 1; it stays in `[0, 1]` while fading |
| `Timeline.ComponentOpacityNonIncreasing` | src/scrollImages.js:399-408 | the component only fades further as progress grows |
| `ScrollInput.Divisor` | src/scrollImages.js:432-435 | the divisor is the touch or the wheel sensitivity, and it is positive when both sensitivities are |
| `ScrollInput.DeltaTarget` | src/scrollImages.js:432-436 | the value handed to deltaTo has the sign of `deltaY` and is `deltaY` divided by the touch or the wheel divisor; any type other than `touchmove` uses the wheel divisor |
| `ScrollInput.TouchMovesTwiceAsFar` | src/scrollImages.js:62-65 | with the default divisors 500 and 1000, a touch delta moves the target twice as far as a wheel delta |
| `Assets.MediaOf` | src/scrollImages.js:109-118 | the collected list has at most one item per element, and each item points inside the element list |
| `Assets.MediaOfLength` | src/scrollImages.js:109-118 | there is one item per element exactly when every element is an image with a src or a video |
| `Assets.CollectMedia` | src/scrollImages.js:107-118 | the collection loop yields the media list that `MediaOf` specifies |
| `Assets.MediaOfSound` | src/scrollImages.js:109-118 | each item describes its element (an image with a non-empty src, or a video), and items are in strictly increasing document order |
| `Assets.MediaOfComplete` | src/scrollImages.js:109-118 | every image with a src and every video is collected |
| `Assets.Images` | src/scrollImages.js:182 | the image filter yields only images, each taken from its input, and no more of them than its input has |
| `Assets.Videos` | src/scrollImages.js:191 | the video filter yields only videos, each taken from its input, and no more of them than its input has |
| `Assets.SplitByKind` | src/scrollImages.js:182-191 | the images and the videos of a list together are exactly the list, as multisets |
| `Assets.InitialTier` | src/scrollImages.js:161-162 | the initial tier holds only images, taken from the first `initialPreloadCount` media, so at most that many |
| `Assets.RemainingTier` | src/scrollImages.js:179-182 | the remaining tier holds only images, taken from the media after the first `initialPreloadCount` |
| `Assets.VideoTier` | src/scrollImages.js:191 | the video tier holds only videos, each taken from the media list |
| `Assets.TiersPartition` | src/scrollImages.js:160-191 | the initial, remaining and video tiers together are exactly the media, each item once; the initial tier has at most `initialPreloadCount` items |
| `Assets.SourcesInOrder` | src/scrollImages.js:165 | the sources list has one entry per image, the k-th being the k-th image's src |
| `Assets.PreloadImages` | src/scrollImages.js:15-29 | every source settles, with its image if it loaded and with nothing if it failed; nothing rejects |
| `Assets.ReadyDelay` | src/scrollImages.js:32-47 | preloadVideo resolves at once from readyState 3 on, otherwise at the earlier of `canplaythrough` and the 5000 ms timeout, so never later than 5000 ms |
| `Assets.LoadVideoSequentially` | src/scrollImages.js:196-230 | the loader records one load per video from `index` on; the first is video `index`, starting at the call (the rest of the schedule is `Assets.SequentialSchedule`) |
| `Assets.SequentialSchedule` | src/scrollImages.js:196-229 | the loader visits the videos from `index` on, once each and in order; the first starts at the call, each next one starts exactly when the previous one resolved, and each wait lasts at most the timeout |
| `Assets.StartsAfterEarlierReady` | src/scrollImages.js:224-229 | video j never starts before every earlier video has resolved |
| `Assets.ScheduleBounded` | src/scrollImages.js:196-229 | every load starts no earlier than the chain, and all resolve within one timeout per video |
| `ScrollImages.DefaultConfigWellFormed` | src/scrollImages.js:51-71 | the default settings make every division of the session defined |
| `ScrollImages.TimelineCoversElements` | src/scrollImages.js:282-296 | `totalDuration` never exceeds the end of the last element's scale tween, since GSAP staggers the elements by their own index; it equals that end exactly when every element is collected |
| `ScrollImages.ScrollSession.constructor` | src/scrollImages.js:74-349 | media are collected and the session invariant is established; `incr` starts at `initialIncr` and scroll is disabled; headings with a progress entry take their first style; the rest stay at (0, 30); a leading video is activated, and plays if it accepts |
| `ScrollImages.ScrollSession.UpdateHeadings` | src/scrollImages.js:315-346 | every heading with a progress entry takes the style of its phase at `incr`; headings beyond the array keep their style |
| `ScrollImages.ScrollSession.UpdateVideoPlayback` | src/scrollImages.js:352-378 | a video inside its window is asked to play iff it was paused; a video outside its window is paused iff it was playing; all others are untouched; the new paused flags follow from that and from play acceptance |
| `ScrollImages.ScrollSession.OnDeltaUpdate` | src/scrollImages.js:384-421 | `incr` becomes `clamp(incr + value)`, which is `Integrate` of the old position over this one tick, and lies in `[0, totalDuration]`; headings and videos follow the new position; the component's opacity and the form's visibility are those of the new progress; the form changes only if the wrapper exists |
| `ScrollImages.ScrollSession.GetProgress` | src/scrollImages.js:448 | progress times `totalDuration` is `incr`, and it lies in `[0, 1]` while `incr` is on the timeline |
| `ScrollImages.ScrollSession.GetTotalDuration` | src/scrollImages.js:449 | the total duration is `TotalDuration` of the collected media, and positive |
| `ScrollImages.ScrollSession.GetCurrentTime` | src/scrollImages.js:450 | the current time is the progress times the total duration, that is `incr` |
| `ScrollImages.ScrollSession.FormShownAtEnd` | src/scrollImages.js:410-420 | after a tick the form is shown exactly when `incr == totalDuration` |
| `ScrollImages.ScrollSession.EnableScroll` | src/scrollImages.js:451-453 | the gate is open |
| `ScrollImages.ScrollSession.DisableScroll` | src/scrollImages.js:454-456 | the gate is closed |
| `ScrollImages.ScrollSession.OnChange` | src/scrollImages.js:428-437 | while disabled, nothing changes; otherwise the delta target becomes `deltaY` divided by the event's divisor |
| `ScrollImages.ScrollSession.OnStop` | src/scrollImages.js:438-441 | while disabled, nothing changes; otherwise the delta target becomes 0 |
| `ScrollImages.ScrollSession.OnStaggerStart` | src/scrollImages.js:297-307 | the counter goes up by one and the starting element's z-index becomes the new counter; the others keep theirs |
| `ScrollImages.ScrollSession.AnimationTarget` | src/scrollImages.js:458-459 | the target time is the target progress of the timeline |
| `ScrollImages.ScrollSession.AnimateFrame` | src/scrollImages.js:466-470 | a tween frame sets `incr` to the tween value with no clamp; only the headings follow; videos, fade and form are left as they were |
| `ScrollImages.ScrollSession.PreloadInitialAssets` | src/scrollImages.js:160-175 | the settled list is the initial images' preload; the initial images are requested and then the remaining ones; the whole sequential video chain is recorded; afterwards an element is activated, and paused, iff it was before or is a video of the tier |
| `ScrollImages.ScrollSession.PreloadRemainingAssets` | src/scrollImages.js:178-235 | the remaining images are requested, and the video chain is the one `Assets.LoadVideoSequentially` specifies; afterwards an element is activated, and paused by its `load()`, iff it was before or is a video of the tier |
| `ScrollImages.ScrollSession.LoadVideoSequentially` | src/scrollImages.js:196-230 | the recursive loader appends exactly the specified schedule from `index` on; afterwards an element is activated, and paused by its `load()`, iff it was before or is one of the tier's videos from `index` on |
| `ScrollImages.InitScrollImages` | src/scrollImages.js:84-123 | there is no session exactly when the component is missing, has no `.scroll_image` elements, or yields no media; otherwise the session is fresh and valid, over those elements |
| `ScrollImagesInfinite.InfiniteDivisor` | src/scrollImagesInfinite.js:129 | the hard-coded divisor is positive and is the finite session's default divisor for the event type |
| `ScrollImagesInfinite.InfiniteDeltaTarget` | src/scrollImagesInfinite.js:129-130 | the value handed to deltaTo has the sign of `deltaY`, and times the divisor it gives back `deltaY` |
| `ScrollImagesInfinite.InfiniteDivisorIsDefault` | src/scrollImagesInfinite.js:128-130 | the hard-coded divisors 500 and 1000 give the default sensitivity's delta target for every event type; the configured one is never read |
| `ScrollImagesInfinite.ReferenceIndex` | src/scrollImagesInfinite.js:102-104 | forward, the reference is the previous element, or the last one for element 0; backward, it is the next element, or the first one for the last element; either way it is the ring neighbour |
| `ScrollImagesInfinite.NewIndex` | src/scrollImagesInfinite.js:107-111 | the new data-index is a valid media index, congruent to the reference's index ± 1 modulo the number of media |
| `ScrollImagesInfinite.InfiniteSession.SrcIsMedia` | src/scrollImagesInfinite.js:115-116 | under the session invariant, every element's src is one of the media |
| `ScrollImagesInfinite.InfiniteSession.constructor` | src/scrollImagesInfinite.js:57-62 | element i gets data-index i and src `medias[i % n]`, the counter ends at the number of elements, and the invariant (every src is `medias[mod(dataIndex, n)]`) is established |
| `ScrollImagesInfinite.InfiniteSession.OnDeltaUpdate` | src/scrollImagesInfinite.js:67-70 | the eased value is stored and added to `incr` with no clamp |
| `ScrollImagesInfinite.InfiniteSession.OnRepeat` | src/scrollImagesInfinite.js:86-117 | the counter moves by +1 when `delta >= 0` and by -1 otherwise; the element's z-index becomes the counter (forward) or `counter - (count - 1)` (backward); only the repeating element's data-index and src change: it shows the media one step from its neighbour's; the invariant is kept |
| `ScrollImagesInfinite.InfiniteSession.EnableScroll` | src/scrollImagesInfinite.js:144-146 | the gate is open |
| `ScrollImagesInfinite.InfiniteSession.DisableScroll` | src/scrollImagesInfinite.js:147-149 | the gate is closed |
| `ScrollImagesInfinite.InfiniteSession.OnChange` | src/scrollImagesInfinite.js:125-132 | while disabled, nothing changes; otherwise the target is `deltaY / 500` for `touchmove` and `deltaY / 1000` otherwise |
| `ScrollImagesInfinite.InfiniteSession.OnStop` | src/scrollImagesInfinite.js:133-137 | while disabled, nothing changes; otherwise the target becomes 0 |
| `ScrollImagesInfinite.InfiniteSession.AnimateFrame` | src/scrollImagesInfinite.js:158-161 | `animateToTime`'s frame overwrites `incr`, unclamped |
| `ScrollImagesInfinite.InfiniteSession.GetProgress` | src/scrollImagesInfinite.js:142-143 | the progress is the current time, the raw accumulated `incr`: unlike the finite session's, it is not a fraction of a total duration |
| `ScrollImagesInfinite.InitScrollImagesInfinite` | src/scrollImagesInfinite.js:28-55 | no session when the component, its images or its media are missing; otherwise a valid session with the counter at the number of images |
| `FormValidation.Trim` | src/formValidation.js:13 | the result is no longer than the input, is empty exactly when the input is all whitespace, and otherwise neither starts nor ends with whitespace |
| `FormValidation.TrimStripsWhitespace` | src/formValidation.js:13 | trim removes only whitespace: the value is its trim with a run of whitespace before it and one after it |
| `FormValidation.TrimIgnoresPadding` | src/formValidation.js:13 | surrounding a value with whitespace does not change its trimmed form |
| `FormValidation.TrimOfNoSpace` | src/formValidation.js:13 | a value that neither starts nor ends with whitespace is its own trim |
| `FormValidation.TrimIdempotent` | src/formValidation.js:13 | trimming twice equals trimming once |
| `FormValidation.EmailPattern` | src/formValidation.js:10 | no string shorter than six characters matches the pattern |
| `FormValidation.IsValidEmail` | src/formValidation.js:13-14 | a valid value keeps at least six characters once trimmed |
| `FormValidation.EmailPatternCharacterized` | src/formValidation.js:10 | the pattern holds iff: the value has no whitespace; it has exactly one '@', with a non-empty part before it; and after the '@' comes a non-empty label, a '.', and at least two further characters |
| `FormValidation.ValidHasOneAtAndNoSpace` | src/formValidation.js:10 | every valid value, once trimmed, has exactly one '@' and no whitespace |
| `FormValidation.PlainAddressValid` | src/formValidation.js:9-10 | "a@b.co" is valid |
| `FormValidation.OneLetterExtensionInvalid` | src/formValidation.js:9-10 | "a@b.c" is invalid: the extension needs two characters |
| `FormValidation.EmptyInvalid` | src/formValidation.js:9-10 | "" is invalid |
| `FormValidation.TwoAtsInvalid` | src/formValidation.js:10 | "a@b@c.de" is invalid |
| `FormValidation.DottedDomainValid` | src/formValidation.js:10 | "a@b.c.de" is valid: the domain part may itself contain dots |
| `FormValidation.PaddedAddressValid` | src/formValidation.js:13-14 | "  a@b.co\n" is valid, because it is trimmed first |
| `FormValidation.ValidityIgnoresPadding` | src/formValidation.js:13-14 | surrounding whitespace never changes validity |
| `FormValidation.EmailValidation.ValidateEmail` | src/formValidation.js:12-21 | the wrapper is active exactly when the trimmed value matches the pattern |
| `FormValidation.InitFormValidation` | src/formValidation.js:3-32 | a no-op when the input or the wrapper is missing, leaving the flag unchanged; otherwise it binds both, and the flag is the validity of the current value |
| `FormTypeSize.Step` | src/formTypeSize.js:43-56 | one iteration halves the interval and never widens it; a fitting test raises `minSize` to the test size and records it as optimal; a failing test lowers `maxSize` to it and keeps the optimal size |
| `FormTypeSize.LastFitting` | src/formTypeSize.js:49-52 | the reference definition: a tested size that fits with no later test fitting, or none when no test fit |
| `FormTypeSize.Bisect` | src/formTypeSize.js:38-57 | after k steps the interval's width is `16.5 / 2^k` |
| `FormTypeSize.BisectInvariant` | src/formTypeSize.js:38-57 | after k steps `1 <= minSize <= maxSize <= 17.5` and the width is `16.5 / 2^k`; the optimal size is 17.5 or `minSize`; `minSize` is 1 or fits, and `maxSize` is 17.5 or does not fit |
| `FormTypeSize.BisectMonotone` | src/formTypeSize.js:49-56 | `minSize` never decreases and `maxSize` never increases over the iterations |
| `FormTypeSize.TestsBelowBase` | src/formTypeSize.js:42-43 | every tested size lies strictly between 1 and 17.5 |
| `FormTypeSize.OptimalIsLastFitting` | src/formTypeSize.js:38-57 | after k steps, the optimal size is the last tested size that fit, or 17.5 when none did |
| `FormTypeSize.FittedSizeFits` | src/formTypeSize.js:21-64 | for a non-empty value the result is 17.5 exactly when none of the 15 tested sizes fit, and otherwise a size that fits |
| `FormTypeSize.FittedSize` | src/formTypeSize.js:21-64 | the target size always lies in `[1, 17.5]` |
| `FormTypeSize.NearLargestFit` | src/formTypeSize.js:42-57 | when text widens with the font size, no fitting size up to 17.5 lies above the final `maxSize`, and a found size is within `16.5 / 2^15` of every fitting size |
| `FormTypeSize.SizedInput.constructor` | src/formTypeSize.js:68 | the initial font size is the placeholder size 17.5 |
| `FormTypeSize.SizedInput.UpdateFontSize` | src/formTypeSize.js:21-65 | the 15-iteration loop computes exactly the specified result: 17.5 for an empty value, otherwise the optimal size after fifteen steps |

Calling `ValidateEmail` again changes nothing. Its result depends only on the input's value, and the call does not modify the input.

## Left out

- GSAP is not modelled:
  - easing curves;
  - timeline rendering and `tl.time`;
  - the stagger scheduling that decides when `onStart` and `onRepeat` fire;
  - `kill()` and `destroy()`.
  
  Instead, each tick's eased delta, each tween frame's value and the element that repeats are inputs.
- The DOM, Observer event plumbing and `console` output are not modelled. Elements are sequence slots, and headings, z-indices, play state and classes are fields.
- detectBrowser and the webm/mp4 `<source>` filtering depend on the user agent and the DOM tree.
- Network loading, timers and the `canplaythrough` event are replaced by oracles: whether each image loads, and each video's readyState and event delay.
- ScrollImages.ScrollSession.LoadVideoSequentially runs the whole asynchronous chain in one call. Ticks and scroll events that interleave with the awaits are not modelled, and neither is the fact that the caller does not await the chain.
- ScrollImages.ScrollSession.PreloadInitialAssets does not model the await on the initial images between the two request batches.
- Assets.ReadyDelay does not model a `canplaythrough` that fires before its listener is attached. It reads readyState once, when the video is awaited.
- The activation of a video's `data-src` attributes is not modelled. `activated` is a flag per element; whether the video has its own `data-src` or only `<source>` children does not matter to the model.
- ScrollImages.ScrollSession.constructor requires `WellFormed(config)`: non-negative stagger, positive duration and divisors, and `fadeOutStart < 1`. This is a modelling assumption that the defaults meet (src/scrollImages.js:51-71) and so does the one call site, src/index.js:16-20, which sets only `headingAnimationProgress`, `initialPreloadCount` 5 and `fadeOutStart` 0.95. Other settings are not modelled. Some of them would give `NaN` or `Infinity` in JavaScript, such as a zero divisor, or `fadeOutStart` 1 with progress 1. Others, such as a negative stagger, give finite values whose behaviour the model does not cover.
- initialPreloadCount is a `nat`. The negative counts that JavaScript's `slice` would accept are not modelled.
- Helpers.Mod requires `m != 0`; JavaScript yields `NaN` for `m == 0`. Non-integer operands of `%` are not modelled.
- In the infinite session the media are sources read from `img` elements. A missing `src` attribute (`null`) is not modelled.
- ScrollImagesInfinite.ReferenceIndex treats `previousElementSibling` and `nextElementSibling` as the neighbouring `.scroll_image` element. It does not model a sibling of another kind in the DOM.
- animateToProgress, `animateToTime` and `quickTo` return tween objects. The model covers only their targets (`AnimationTarget`) and their frames (`AnimateFrame`).
- Timing is not modelled:
  - the 10 ms `setTimeout` on paste in both form files — validation and fitting are plain calls that may happen at any time;
  - the 0.3 s font-size tween — `FormTypeSize.SizedInput.UpdateFontSize` records its target size.
- The text width of the value at a font size is an oracle `measure`, and `offsetWidth` is an input.
- JavaScript strings are UTF-16 code units, and here they are Dafny `char` sequences. Whitespace is the set JavaScript's `\s` and `trim` share, listed in `FormValidation.IsSpace`. The difference shows in the pattern's `[^\s@]{2,}`. A character outside the Basic Multilingual Plane is two code units, so JavaScript's regex, which has no `u` flag, accepts `a@b.😀`. The model counts it as one character and rejects it.
- For a non-empty value that fits at no tested size, the font fitter keeps 17.5, the largest size. `FormTypeSize.FittedSizeFits` states this behaviour as the code has it.
- Assets.Images: its own contract states only that the filter keeps images taken from its input and does not grow; which items it keeps, with multiplicity, is stated by Assets.SplitByKind and Assets.TiersPartition, and the order of the kept items is not stated.
- Assets.Videos: the same as Assets.Images, for videos.
- Assets.InitialTier, Assets.RemainingTier, Assets.VideoTier: their own contracts state kind, origin and size; that the three tiers together are exactly the media is Assets.TiersPartition.
- Assets.LoadVideoSequentially: its own contract states the length and the first load; the full schedule is Assets.SequentialSchedule.
- FormValidation.EmailPattern: its own contract states only the minimum length of a match; its full meaning is FormValidation.EmailPatternCharacterized.
- FormValidation.IsValidEmail: the same, through trim; the full meaning is FormValidation.ValidityIgnoresPadding and FormValidation.EmailPatternCharacterized.
- FormTypeSize.Bisect: its own contract states only the width; the rest of the loop invariant is FormTypeSize.BisectInvariant.
- ScrollImages.ScrollSession.LoadVideoSequentially: `load()` is modelled as leaving the video paused, as the HTML media load algorithm does for a video that has begun loading. This includes the leading video that the constructor may have started. The `play()` promise that this interrupts is not modelled.
- ScrollImagesInfinite.InfiniteSession.OnDeltaUpdate: `tl.time(incr)` and the repeats it triggers are GSAP's and are driven from outside through OnRepeat.
