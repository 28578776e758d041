# LIFE X presentation: section navigator and gallery browser

The LIFE X BtoB presentation is a single-page slide deck. Fifteen
full-screen sections are shown one at a time. One of the sections holds a
gallery of exterior renderings. This project models the deck's logic in
Dafny and proves what that logic promises. The logic lives in
`src/js/main.js`, and it has two parts.

- **Section navigator** (`navigator.dfy`, module `SectionNavigator`).
  - **State**: the current section plus the `isAnimating` latch.
  - **Operations**: `goToSection`, `navigateSection`, `handleKeyboard`, `updateProgress`, `updateButtonStates` and the `beforeunload` veto.
  - **Latch release**: the latch is cleared only by the completion callback of the incoming cross-fade. That callback is the `entering` component of the state, and `CompleteTransition` is its invocation.
  - **Latch property**: the callback is registered only when the target section has an element. So a jump to a missing section freezes the deck (`MissingSectionFreezes`).
  - **Structure**: pure step functions on the `Nav` value carry the properties. The `Navigator` class holds the same data in mutable fields, and each of its methods is proved to perform its step function.
- **Gallery browser** (`gallery.dfy`, module `GalleryBrowser`): filtering by plot size and facing, pagination in pages of 18, manual browsing and a timed slideshow. It is built on three modules:
  - `filename.dfy` (module `FileName`): the filename pattern `(\d+)-\d+-([NESW])-` as a scanner, checked against an independent statement of the pattern, and the filter.
  - `galleryview.dfy` (module `GalleryView`): page arithmetic, the thumbnail strip, and the pagination and info texts, which can be read back.
  - `decimal.dfy` (module `Decimal`): the decimal text of numbers.

  `GalleryState` holds the gallery's fields of the global `state` record together with what it last wrote into the page. Each function of the source is a step function on this value. `Coherent` says that the page shows what the state holds, and the `...Coherent` lemmas prove that every step keeps it. The `Gallery` class's methods are proved to perform the step functions.

`scenarios.dfy` states concrete cases: the pagination of the 40-image list, a gallery filename and the specs text written for it, a generic filename, short slideshows, and the deck's boundaries.

Which section elements exist is a parameter, `present`. Two behaviours of
the code are worth knowing when reading the model:

- `goToSection` does not special-case the current section. With the current
  section as target it still sets the latch and replays the incoming fade
  (`src/js/main.js:135-177`). The outgoing fade runs on the same element, and
  its completion callback (`src/js/main.js:146-148`) removes `active` from the
  section that stays current. That class change is a display effect and is
  not modelled (see Left out).
- The slideshow loops back in the same tick that lands on the last image
  (see Findings).

## Model

| member | source | states |
|---|---|---|
| SectionNavigator.Initial | src/js/main.js:18-31 | the deck starts at section 1, idle, with its controls written and consistent |
| SectionNavigator.GoTo | src/js/main.js:135-177 | a target outside 1..15 or a set latch changes nothing; otherwise the section becomes the target and the latch is set; the callback is registered iff the target has an element; the buttons and progress follow; consistency is preserved |
| SectionNavigator.Navigate | src/js/main.js:119-133 | no-op while animating or at the boundary in that direction; otherwise it is `GoTo` of the neighbour; the section moves by at most one |
| SectionNavigator.HandleKey | src/js/main.js:92-114 | while animating nothing happens and no default is prevented; ArrowRight and Space go next, ArrowLeft goes previous, Home goes to 1 and End to 15, each preventing the default; other keys do nothing |
| SectionNavigator.Complete | src/js/main.js:161-164 | the registered callback clears the latch and starts its section's entrance; with none registered nothing happens |
| SectionNavigator.VetoesUnload | src/js/main.js:84-89 | leaving is vetoed exactly when the deck is past section 1 |
| SectionNavigator.WithProgress | src/js/main.js:317-324 | defined as writing the decimal texts of the current and total section numbers; the property is `Shown`, which `GoTo` and `Initial` ensure |
| SectionNavigator.WithButtonStates | src/js/main.js:326-333 | defined as disabling prev at section 1 and next at section 15; the property is `Shown`, which `GoTo` and `Initial` ensure |
| SectionNavigator.Step | src/js/main.js:75-114 | every event keeps consistency; under the latch every event but the fade's end is ignored; only the fade's end clears the latch |
| SectionNavigator.RunConsistent | src/js/main.js:119-177 | after any sequence of events the section stays in 1..15 and the controls agree with it |
| SectionNavigator.StuckForever | src/js/main.js:135-167 | a latch with no registered callback is never cleared: every later event is ignored |
| SectionNavigator.MissingSectionFreezes | src/js/main.js:153-167 | a jump to a section without an element moves there and then ignores everything |
| SectionNavigator.Run | src/js/main.js:75-114 | defined as folding `Step` over a sequence of events; its properties are `RunConsistent`, `StuckForever` and `AllPresentReleasable` |
| SectionNavigator.AllPresentReleasable | src/js/main.js:153-167 | when every section has an element, the latch is only ever set while a callback is pending |
| SectionNavigator.Navigator.constructor | src/js/main.js:49-60 | `init` as far as the navigator goes: the initial state |
| SectionNavigator.Navigator.UpdateProgress | src/js/main.js:317-324 | writes the progress texts as `WithProgress` |
| SectionNavigator.Navigator.UpdateButtonStates | src/js/main.js:326-333 | writes the button states as `WithButtonStates` |
| SectionNavigator.Navigator.GoToSection | src/js/main.js:135-177 | performs `GoTo` and keeps consistency |
| SectionNavigator.Navigator.NavigateSection | src/js/main.js:119-133 | performs `Navigate` and keeps consistency |
| SectionNavigator.Navigator.HandleKeyboard | src/js/main.js:92-114 | performs `HandleKey`, returning whether the default was prevented |
| SectionNavigator.Navigator.CompleteTransition | src/js/main.js:161-164 | performs `Complete`, returning the section whose entrance starts |
| SectionNavigator.Navigator.BeforeUnload | src/js/main.js:84-89 | asks for confirmation exactly when the current section is not 1 |
| Decimal.NatToString | src/js/main.js:319-322 | the text a number is written as: non-empty digits without a leading zero, one digit exactly below 10 |
| Decimal.ValueOfNatToString | src/js/main.js:319-322 | the text denotes the number it was written from |
| Decimal.NatToStringOfValue | src/js/main.js:319-322 | every canonical digit string is the text of its value |
| Decimal.NatToStringInjective | src/js/main.js:319-322 | distinct numbers have distinct texts |
| Decimal.ReadNatToString | src/js/main.js:595 | reading a number back from its text returns it and the rest |
| FileName.RunEnd | src/js/main.js:453 | the end of the maximal digit run at a position |
| FileName.MatchAtIff | src/js/main.js:453 | the scanner succeeds at a position with captures `c` iff the pattern `size-depth-dir-` occurs there with those groups |
| FileName.MatchAtSound | src/js/main.js:453 | what the scanner returns is a match of the pattern |
| FileName.MatchAtComplete | src/js/main.js:453 | every occurrence of the pattern is found by the scanner with the same groups |
| FileName.FindFromFirst | src/js/main.js:453 | a successful scan stops at a match with no earlier match |
| FileName.FindFromNone | src/js/main.js:453 | a failed scan passed no match |
| FileName.FindFromReaches | src/js/main.js:453 | the scan reaches the first matching position |
| FileName.FindFromNoneOf | src/js/main.js:453 | a scan over positions that all fail finds nothing |
| FileName.NoMatchAtNonDigit | src/js/main.js:453 | no match starts at a non-digit |
| FileName.SkipsDigitFreePrefix | src/js/main.js:453 | the unanchored search passes over a digit-free prefix to the match after it |
| FileName.MatchAt | src/js/main.js:453 | defined as one attempt of the pattern at a position; agrees with the pattern by `MatchAtIff` |
| FileName.FindFrom | src/js/main.js:453 | defined as trying each position from the given one in order; first-match behaviour by `FindFromFirst`, `FindFromNone` and `FindFromReaches` |
| FileName.Parse | src/js/main.js:453 | defined as the scan from position 0; the leftmost match by `ParseIsLeftmostMatch`, the generic case by `ParseNoneIff` |
| FileName.ParseIsLeftmostMatch | src/js/main.js:453-457 | `Parse` returns exactly the groups of the leftmost match of the pattern |
| FileName.ParseNoneIff | src/js/main.js:453-454 | a filename is generic exactly when the pattern matches nowhere in it |
| FileName.ParseWellFormed | src/js/main.js:453-457 | the captured size is a non-empty digit string and the direction a compass letter |
| FileName.Keeps | src/js/main.js:452-463 | defined as the filter callback: generic names pass, others need both filters to be `all` or equal; used by `FilterMembers` |
| FileName.FilterImages | src/js/main.js:450-463 | defined as `Array.prototype.filter` with `Keeps`; membership, order, counts and idempotence by `FilterMembers`, `FilterIsSubsequence`, `FilterCounts` and `FilterIdempotent` |
| FileName.FilterMembers | src/js/main.js:448-463 | an image survives the filter iff it was listed and is generic or matches both filters; the result is no longer than the list |
| FileName.FilterIsSubsequence | src/js/main.js:450-463 | the filtered list keeps the original order |
| FileName.FilterCounts | src/js/main.js:450-463 | each kept image appears as often as in the original list, each dropped one not at all |
| FileName.FilterAllKeepsAll | src/js/main.js:383 | with both filters at `all` the filtered list is the whole list |
| FileName.FilterIdempotent | src/js/main.js:450-463 | filtering the filtered list again changes nothing |
| GalleryView.TotalPages | src/js/main.js:573 | the least number of pages of 18 that holds the list |
| GalleryView.PageOf | src/js/main.js:562 | the page whose range contains the index |
| GalleryView.PageOfExists | src/js/main.js:562 | an existing image lies on an existing page |
| GalleryView.PageSlice | src/js/main.js:478-480 | the page's images: at most 18, the ones at the page's offsets, empty past the end |
| GalleryView.Thumbnails | src/js/main.js:473-497 | one thumbnail per image of the page, with its global index and name, active exactly for the selected index |
| GalleryView.ThumbnailOfEveryImage | src/js/main.js:473-497 | every image has a thumbnail on the page `PageOf` names |
| GalleryView.ActiveThumbnail | src/js/main.js:486 | at most one thumbnail is active, and one is exactly when the selection is on the page |
| GalleryView.ToggleActive | src/js/main.js:505-510 | defined as re-marking each thumbnail active iff its global index is `index`; keeps the strip's length, and equals a fresh render by `ToggleRerenders` |
| GalleryView.ToggleRerenders | src/js/main.js:504-510 | moving the active mark over a page's strip gives what rendering it for the new selection would |
| GalleryView.PageRange | src/js/main.js:587-588 | defined as the 1-based first and last numbers of a page; bounded by `PagerDescribesPage` |
| GalleryView.SlashText | src/js/main.js:543 | defined as `a / b`; read back by `SlashTextRoundTrip` |
| GalleryView.RangeText | src/js/main.js:595 | defined as `first-last / total`; read back by `RangeTextRoundTrip` |
| GalleryView.PagerFor | src/js/main.js:585-605 | prev is disabled exactly on page 0, next exactly on the last page |
| GalleryView.PagerDescribesPage | src/js/main.js:585-605 | on an existing page the range text names exactly the thumbnails shown, and next is disabled exactly when the page shows the last image |
| GalleryView.SlashTextRoundTrip | src/js/main.js:543 | the `a / b` text reads back as `a` and `b` |
| GalleryView.RangeTextRoundTrip | src/js/main.js:595 | the pagination text reads back as the first, last and total numbers |
| GalleryView.CountText | src/js/main.js:543 | defined as `${index + 1} / ${length}`; read back by `CountTextRoundTrip` |
| GalleryView.CountTextRoundTrip | src/js/main.js:543 | the counter reads back as the 1-based position and the list length |
| GalleryView.Label | src/js/main.js:549-550 | defined as the compass-letter-to-kanji map with the letter itself as fallback; inverted on compass letters by `Unlabel` in `SpecsTextRoundTrip` |
| GalleryView.SpecsText | src/js/main.js:547-550 | defined as `${size}坪 • ${label}向き`; determines its capture by `SpecsTextRoundTrip` |
| GalleryView.SpecsFor | src/js/main.js:535-536 | defined as the specs text of the selected name, none when the index is out of range or the name is generic; kept on screen by `Coherent` through the `...Coherent` lemmas |
| GalleryView.SpecsTextRoundTrip | src/js/main.js:546-551 | the specs text determines the size and direction it was written from |
| GalleryBrowser.NavigateIndex | src/js/main.js:555-559 | one step in the direction, clamped to the list; unchanged exactly at the boundary in that direction |
| GalleryBrowser.StepPage | src/js/main.js:572-580 | one page in the direction, clamped to the pages; unchanged exactly at the boundary in that direction |
| GalleryBrowser.TickIndex | src/js/main.js:609-618 | one tick advances by one, except that it returns to 0 when it reaches or already is at the last image |
| GalleryBrowser.SlideshowSkipsLast | src/js/main.js:609-618 | as written, a slideshow over two or more images never rests on the last one |
| GalleryBrowser.TwoImageSlideshowStalls | src/js/main.js:609-618 | as written, a slideshow over two images never leaves the first |
| GalleryBrowser.IntendedSlideshowVisitsAll | src/js/main.js:609-618 | the corrected tick shows image `k` after `k` ticks and is back at the first after `len` ticks |
| GalleryBrowser.Rendered | src/js/main.js:473-498 | defined as redrawing the strip of the current page; its use keeps `Coherent` in `FilteredCoherent`, `NavigatedCoherent`, `PageChangedCoherent` and `TickedCoherent` |
| GalleryBrowser.Paginated | src/js/main.js:585-605 | defined as writing `PagerFor` of the current page; the pagination clauses of `FilteredCoherent`, `NavigatedCoherent` and `PageChangedCoherent` |
| GalleryBrowser.Informed | src/js/main.js:532-552 | defined as writing the counter always and the specs on a match; the info clauses of `Coherent` by `SelectedCoherent` and `FilteredCoherent` |
| GalleryBrowser.Selected | src/js/main.js:500-511 | defined as setting the index, `Informed`, then `ToggleActive`; coherent and changing nothing else by `SelectedCoherent` |
| GalleryBrowser.Initial | src/js/main.js:338-388 | defined as the unfiltered list, `Rendered` then `Informed`; coherent by `InitialCoherent` |
| GalleryBrowser.Filtered | src/js/main.js:448-471 | defined as the filtered list with page and index 0, then `Rendered`, `Informed` and `Paginated`; its properties by `FilteredCoherent` |
| GalleryBrowser.WithFilter | src/js/main.js:394-405 | defined as setting one filter, then `Filtered`; its properties by `WithFilterSets` |
| GalleryBrowser.Navigated | src/js/main.js:554-570 | defined as the `NavigateIndex` step, a redraw when the page changes, then `Selected`; its properties by `NavigatedCoherent` and `NavigatedShowsSelection` |
| GalleryBrowser.PageChanged | src/js/main.js:572-583 | defined as the `StepPage` step, then `Rendered` and `Paginated`; its properties by `PageChangedCoherent` |
| GalleryBrowser.Ticked | src/js/main.js:609-618 | defined as `Navigated(Next)`, then the reset to image 0 when the last image is selected; its properties by `TickedCoherent` |
| GalleryBrowser.Stopped | src/js/main.js:622-627 | defined as clearing a truthy handle; its properties by `StartStop` |
| GalleryBrowser.Started | src/js/main.js:607-620 | defined as `Stopped`, then recording the new handle; its properties by `StartStop` |
| GalleryBrowser.InitialCoherent | src/js/main.js:338-388 | `initGallery` shows all images with the first selected and no pagination written |
| GalleryBrowser.SelectedCoherent | src/js/main.js:500-511 | selecting on a displayed page makes strip and info agree with the new selection; nothing else changes |
| GalleryBrowser.FilteredCoherent | src/js/main.js:448-471 | from any state, `applyFilters` leaves the filtered list, the first page and first image, a fresh pagination control and a coherent page; filters and timer are untouched |
| GalleryBrowser.WithFilterSets | src/js/main.js:394-405 | a filter button sets exactly its own filter and re-filters |
| GalleryBrowser.NavigatedCoherent | src/js/main.js:554-570 | `navigateGallery` moves as `NavigateIndex`, ends on the selection's page, rewrites the pagination exactly when the page changed and keeps the page coherent |
| GalleryBrowser.NavigatedShowsSelection | src/js/main.js:554-570 | after navigating, exactly one thumbnail is active and it is the selected image |
| GalleryBrowser.PageChangedCoherent | src/js/main.js:572-583 | `changePage` moves as `StepPage`, rewrites the pagination and leaves selection and info alone |
| GalleryBrowser.TickedCoherent | src/js/main.js:607-620 | a slideshow tick moves as `TickIndex`, ends on the selection's page and keeps the page coherent |
| GalleryBrowser.StartStop | src/js/main.js:607-627 | starting records the new handle; stopping clears it and stopping twice is stopping once |
| GalleryBrowser.Gallery.constructor | src/js/main.js:338-388 | performs `initGallery`; coherent, no timer |
| GalleryBrowser.Gallery.RenderGalleryThumbnails | src/js/main.js:473-498 | redraws the strip of the current page |
| GalleryBrowser.Gallery.UpdatePagination | src/js/main.js:585-605 | writes the pagination control as `PagerFor` |
| GalleryBrowser.Gallery.UpdateGalleryInfo | src/js/main.js:532-552 | writes the counter, and the specs only when the filename carries them |
| GalleryBrowser.Gallery.SelectGalleryImage | src/js/main.js:500-511 | performs `Selected` |
| GalleryBrowser.Gallery.ApplyFilters | src/js/main.js:448-471 | performs `Filtered` and leaves the page coherent |
| GalleryBrowser.Gallery.SetFilter | src/js/main.js:394-405 | performs `WithFilter` and leaves the page coherent |
| GalleryBrowser.Gallery.NavigateGallery | src/js/main.js:554-570 | performs `Navigated` and keeps the page coherent |
| GalleryBrowser.Gallery.ChangePage | src/js/main.js:572-583 | performs `PageChanged` and keeps the page coherent |
| GalleryBrowser.Gallery.StopSlideshow | src/js/main.js:622-627 | performs `Stopped`; afterwards no interval is live |
| GalleryBrowser.Gallery.StartSlideshow | src/js/main.js:607-620 | performs `Started`; afterwards exactly the new interval is live |
| GalleryBrowser.Gallery.SlideshowTick | src/js/main.js:609-618 | performs `Ticked` and keeps the page coherent |
| Scenarios.FortyImagesFirstPage | src/js/main.js:585-605 | 40 images make three pages; page 1 reads `1-18 / 40`, prev disabled |
| Scenarios.FortyImagesSecondPage | src/js/main.js:585-605 | page 2 of 40 images reads `19-36 / 40`, both buttons enabled |
| Scenarios.FortyImagesLastPage | src/js/main.js:585-605 | page 3 of 40 images reads `37-40 / 40`, next disabled |
| Scenarios.SampleFilename | src/js/main.js:352 | the gallery name `パース外観　30-54-N-12-012.jpg` has size 30 and direction N |
| Scenarios.SampleSpecs | src/js/main.js:546-551 | selecting that name writes `30坪 • 北向き` into the specs span |
| Scenarios.GenericFilename | src/js/main.js:379 | the name `外観2.jpg` has no metadata |
| Scenarios.ShortSlideshows | src/js/main.js:609-618 | with two images the slideshow stays on the first; with three it alternates between the first two |
| Scenarios.DeckBoundaries | src/js/main.js:92-133 | previous at section 1 does nothing; End goes to section 15 |

## Left out

- The animation library's tweens, the per-section entrance animations (`src/js/main.js:179-311`) and their timing. Only the registration and invocation of the incoming fade's callback are modelled.
- The outgoing fade's callback that removes the `active` class of the old section (`src/js/main.js:146-148`). When `goToSection` targets the current section, that callback hides the section that stays current. CSS classes, `scrollTop` and the main image's `src` (`updateMainImage`) are not modelled; they are display effects with no bearing on the state.
- DOM lookups are taken to succeed for the fixed controls: the navigation buttons, the progress spans, the gallery strip, the info spans and the pagination elements. The only lookup that varies is the section element, which is the `present` parameter.
- Event-listener registration, the fullscreen button, `debounce` and the start-up dispatch. The view toggle (`src/js/main.js:409-422`) is `StartSlideshow`/`StopSlideshow`.
- The image list literal of `initGallery` is a constructor parameter. The scanner is checked on two of its names (`Scenarios.SampleFilename`, `Scenarios.GenericFilename`), not on all forty.
- The 3-second period of the slideshow interval and real time. A tick is a method call, and the handle `setInterval` returns is a parameter.
- Filter buttons carry one of the two filter kinds. A `data-filter-type` other than `size` or `direction` is not modelled.
- Strings are sequences of characters. Filenames are compared character by character, with no Unicode normalisation.

## Findings

| source | as written | input that shows it | evidently intended | confidence | as-written member | corrected member |
|---|---|---|---|---|---|---|
| src/js/main.js:609-618 | the tick resets to the first image in the same tick whenever `navigateGallery('next')` lands on the last image | two images, first selected: each tick moves to index 1 and resets to 0 at once, so the slideshow never leaves the first image; with forty images it never rests on the last | the last image is shown for one period, and the next tick goes back to the first | not executed | GalleryBrowser.SlideshowSkipsLast | GalleryBrowser.IntendedSlideshowVisitsAll |

`GalleryBrowser.TwoImageSlideshowStalls` is the two-image case of the
as-written tick. The `Gallery` class keeps the as-written tick: it is what
the page does.
