/**
 * The gallery browser: a filtered, paginated view over a fixed list of image
 * filenames, with manual browsing and a timed slideshow.
 *
 * `GalleryState` is the part of the global `state` record the gallery owns,
 * together with what it last wrote into the page (thumbnail strip,
 * pagination control, info texts).  Each function of the source is a step
 * function on it, and `Coherent` says that the page shows what the state
 * holds.  The class `Gallery` keeps the same data in mutable fields; each of
 * its methods is proved to perform its step function.
 */
module GalleryBrowser {
  import opened Common
  import opened FileName
  import opened GalleryView

  /** `navigateGallery`'s index step: one image forward or back, stopping at either end. */
  function NavigateIndex(index: nat, len: nat, dir: Direction): (r: nat)
    ensures r == index || r == index + 1 || r + 1 == index
    ensures dir == Next ==> r >= index
    ensures dir == Prev ==> r <= index
    ensures index < len ==> r < len
    ensures r == index <==> (dir == Next && index + 1 >= len) || (dir == Prev && index == 0)
  {
    match dir
    case Next => if index + 1 < len then index + 1 else index
    case Prev => if index > 0 then index - 1 else index
  }

  /** `changePage`'s step: one page forward or back within `[0, ceil(len / imagesPerPage) - 1]`. */
  function StepPage(page: nat, len: nat, dir: Direction): (r: nat)
    ensures r == page || r == page + 1 || r + 1 == page
    ensures dir == Next ==> r >= page
    ensures dir == Prev ==> r <= page
    ensures page < TotalPages(len) ==> r < TotalPages(len)
    ensures r == page <==> (dir == Next && page + 1 >= TotalPages(len)) || (dir == Prev && page == 0)
  {
    match dir
    case Next => if page + 1 < TotalPages(len) then page + 1 else page
    case Prev => if page > 0 then page - 1 else page
  }

  /**
   * One slideshow tick: `navigateGallery('next')`, then back to the first image
   * whenever that step lands on the last one.
   */
  function TickIndex(index: nat, len: nat): (r: nat)
    ensures index < len ==> r == if index + 2 >= len then 0 else index + 1
    ensures index >= len ==> r == index
  {
    var n := NavigateIndex(index, len, Next);
    if n == len - 1 then 0 else n
  }

  /** The selected index after `k` ticks of the slideshow, started on the first image. */
  function TickRun(len: nat, k: nat): nat {
    if k == 0 then 0 else TickIndex(TickRun(len, k - 1), len)
  }

  /** As written, a slideshow over two or more images never comes to rest on the last one. */
  lemma {:induction false} SlideshowSkipsLast(len: nat, k: nat)
    requires len >= 2
    ensures TickRun(len, k) < len - 1
  {
    if k > 0 {
      SlideshowSkipsLast(len, k - 1);
    }
  }

  /** With exactly two images the slideshow never leaves the first one. */
  lemma {:induction false} TwoImageSlideshowStalls(k: nat)
    ensures TickRun(2, k) == 0
  {
    if k > 0 {
      TwoImageSlideshowStalls(k - 1);
    }
  }

  /** The evidently intended tick: advance, and wrap only after the last image was shown. */
  function IntendedTickIndex(index: nat, len: nat): (r: nat)
    ensures index < len ==> r < len
    ensures r == 0 || r == index + 1
  {
    if index + 1 < len then index + 1 else 0
  }

  function IntendedRun(len: nat, k: nat): nat {
    if k == 0 then 0 else IntendedTickIndex(IntendedRun(len, k - 1), len)
  }

  /** The intended slideshow shows image `k` after `k` ticks and is back at the first after `len`. */
  lemma {:induction false} IntendedSlideshowVisitsAll(len: nat, k: nat)
    requires 0 < len && k <= len
    ensures IntendedRun(len, k) == if k == len then 0 else k
  {
    if k > 0 {
      IntendedSlideshowVisitsAll(len, k - 1);
    }
  }

  /** Which filter a filter button sets: its `data-filter-type`. */
  datatype FilterKind = Size | Direction

  /**
   * The gallery's fields of `state` (`slideshowInterval` is `None` for `null`)
   * and the page: `thumbnails` is the strip, `pager` the pagination control
   * (`None` until first written), `imageNumber` and `imageSpecs` the two info
   * spans (`imageSpecs` is `None` until a filename with specs was selected).
   */
  datatype GalleryState = GalleryState(
    galleryImages: seq<string>,
    filteredImages: seq<string>,
    sizeFilter: string,
    directionFilter: string,
    currentImageIndex: nat,
    currentPage: nat,
    slideshowInterval: Option<nat>,
    thumbnails: seq<Thumbnail>,
    pager: Option<PagerView>,
    imageNumber: string,
    imageSpecs: Option<string>)

  /** The filtered list follows the filters, and the strip and the pagination control show the current page. */
  predicate Displayed(s: GalleryState) {
    s.filteredImages == FilterImages(s.galleryImages, s.sizeFilter, s.directionFilter) &&
    StripOf(s.thumbnails, s.filteredImages, s.currentPage) &&
    (s.pager.Some? ==> s.pager.value == PagerFor(s.currentPage, |s.filteredImages|))
  }

  /** Everything on the page agrees with the state, the selection included. */
  predicate Coherent(s: GalleryState) {
    Displayed(s) &&
    s.thumbnails == Thumbnails(s.filteredImages, s.currentPage, s.currentImageIndex) &&
    s.imageNumber == CountText(s.currentImageIndex, |s.filteredImages|) &&
    (SpecsFor(s.filteredImages, s.currentImageIndex).Some? ==>
      s.imageSpecs == SpecsFor(s.filteredImages, s.currentImageIndex))
  }

  /** The selected image exists, or there are no images and the index is 0. */
  predicate InRange(s: GalleryState) {
    s.currentImageIndex < |s.filteredImages| || (s.filteredImages == [] && s.currentImageIndex == 0)
  }

  /** `renderGalleryThumbnails`: the strip of the current page, the selected image marked. */
  function Rendered(s: GalleryState): GalleryState {
    s.(thumbnails := Thumbnails(s.filteredImages, s.currentPage, s.currentImageIndex))
  }

  /** `updatePagination`. */
  function Paginated(s: GalleryState): GalleryState {
    s.(pager := Some(PagerFor(s.currentPage, |s.filteredImages|)))
  }

  /** `updateGalleryInfo`: the counter always, the specs only when the selected filename carries them. */
  function Informed(s: GalleryState): GalleryState {
    var specs := SpecsFor(s.filteredImages, s.currentImageIndex);
    s.(imageNumber := CountText(s.currentImageIndex, |s.filteredImages|),
       imageSpecs := if specs.Some? then specs else s.imageSpecs)
  }

  /**
   * `selectGalleryImage(index)`: no bounds check; the info is rewritten and
   * the active mark of the strip already on screen moves to `index`.
   */
  function Selected(s: GalleryState, index: nat): GalleryState {
    var t := Informed(s.(currentImageIndex := index));
    t.(thumbnails := ToggleActive(t.thumbnails, t.currentPage, index))
  }

  /** `initGallery`: everything shown unfiltered, the first image selected. */
  function Initial(images: seq<string>): GalleryState {
    Informed(Rendered(GalleryState(images, images, "all", "all", 0, 0, None, [], None, "", None)))
  }

  /** `applyFilters`. */
  function Filtered(s: GalleryState): GalleryState {
    var t := s.(filteredImages := FilterImages(s.galleryImages, s.sizeFilter, s.directionFilter),
                currentPage := 0, currentImageIndex := 0);
    Paginated(Informed(Rendered(t)))
  }

  /** A filter button's click: set one filter, then `applyFilters`. */
  function WithFilter(s: GalleryState, kind: FilterKind, value: string): GalleryState {
    match kind
    case Size => Filtered(s.(sizeFilter := value))
    case Direction => Filtered(s.(directionFilter := value))
  }

  /** `navigateGallery(dir)`: step, follow the selection to its page, select. */
  function Navigated(s: GalleryState, dir: Direction): GalleryState {
    var index := NavigateIndex(s.currentImageIndex, |s.filteredImages|, dir);
    var t := s.(currentImageIndex := index);
    var u := if PageOf(index) != s.currentPage then Paginated(Rendered(t.(currentPage := PageOf(index)))) else t;
    Selected(u, index)
  }

  /** `changePage(dir)`: the strip moves, the selection stays. */
  function PageChanged(s: GalleryState, dir: Direction): GalleryState {
    Paginated(Rendered(s.(currentPage := StepPage(s.currentPage, |s.filteredImages|, dir))))
  }

  /** The slideshow interval's callback. */
  function Ticked(s: GalleryState): GalleryState {
    var t := Navigated(s, Next);
    if t.currentImageIndex == |t.filteredImages| - 1 then
      Selected(Paginated(Rendered(t.(currentImageIndex := 0, currentPage := 0))), 0)
    else t
  }

  /** `stopSlideshow`: a truthy handle is cleared and the field reset to `null`. */
  function Stopped(s: GalleryState): GalleryState {
    if s.slideshowInterval.Some? && s.slideshowInterval.value != 0 then s.(slideshowInterval := None) else s
  }

  /** `startSlideshow`, given the handle `setInterval` returns. */
  function Started(s: GalleryState, handle: nat): GalleryState {
    Stopped(s).(slideshowInterval := Some(handle))
  }

  /** The start-up state is coherent: all images, the first selected, no pagination written yet. */
  lemma InitialCoherent(images: seq<string>)
    ensures var s := Initial(images);
      Coherent(s) && InRange(s) && s.filteredImages == images && s.currentImageIndex == 0 &&
      s.currentPage == 0 && s.pager == None && s.slideshowInterval == None
  {
    FilterAllKeepsAll(images);
    RenderedIsStrip(images, 0, 0);
  }

  /**
   * Selecting from a displayed page makes the whole page coherent with the new
   * selection; only the selection, the strip's marks and the info change.
   */
  lemma SelectedCoherent(s: GalleryState, index: nat)
    requires Displayed(s)
    ensures var t := Selected(s, index);
      Coherent(t) && t.currentImageIndex == index &&
      t == s.(currentImageIndex := index, thumbnails := t.thumbnails,
              imageNumber := t.imageNumber, imageSpecs := t.imageSpecs)
  {
    ToggleRerenders(s.thumbnails, s.filteredImages, s.currentPage, index);
  }

  /** `applyFilters` works from any state: afterwards the page is coherent, on the first page and image. */
  lemma FilteredCoherent(s: GalleryState)
    ensures var t := Filtered(s);
      Coherent(t) && InRange(t) &&
      t.filteredImages == FilterImages(s.galleryImages, s.sizeFilter, s.directionFilter) &&
      t.currentPage == 0 && t.currentImageIndex == 0 &&
      t.pager == Some(PagerFor(0, |t.filteredImages|)) &&
      t.galleryImages == s.galleryImages && t.sizeFilter == s.sizeFilter &&
      t.directionFilter == s.directionFilter && t.slideshowInterval == s.slideshowInterval
  {
    var images := FilterImages(s.galleryImages, s.sizeFilter, s.directionFilter);
    RenderedIsStrip(images, 0, 0);
  }

  /** A filter button changes exactly the filter it names, and the result is the filtered list. */
  lemma WithFilterSets(s: GalleryState, kind: FilterKind, value: string)
    ensures var t := WithFilter(s, kind, value);
      Coherent(t) && InRange(t) &&
      t.sizeFilter == (if kind == Size then value else s.sizeFilter) &&
      t.directionFilter == (if kind == Direction then value else s.directionFilter) &&
      t.filteredImages == FilterImages(s.galleryImages, t.sizeFilter, t.directionFilter) &&
      t.currentPage == 0 && t.currentImageIndex == 0
  {
    match kind
    case Size => FilteredCoherent(s.(sizeFilter := value));
    case Direction => FilteredCoherent(s.(directionFilter := value));
  }

  /**
   * `navigateGallery` keeps the page coherent, steps the index as
   * `NavigateIndex` says, and always ends on the page that shows the selection;
   * the pagination control is rewritten exactly when the page changed.
   */
  lemma NavigatedCoherent(s: GalleryState, dir: Direction)
    requires Coherent(s)
    ensures var t := Navigated(s, dir);
      Coherent(t) &&
      t.currentImageIndex == NavigateIndex(s.currentImageIndex, |s.filteredImages|, dir) &&
      t.currentPage == PageOf(t.currentImageIndex) &&
      t.pager == (if t.currentPage != s.currentPage then Some(PagerFor(t.currentPage, |s.filteredImages|)) else s.pager) &&
      t.filteredImages == s.filteredImages && t.slideshowInterval == s.slideshowInterval &&
      (InRange(s) ==> InRange(t))
  {
    var index := NavigateIndex(s.currentImageIndex, |s.filteredImages|, dir);
    var t := s.(currentImageIndex := index);
    if PageOf(index) != s.currentPage {
      RenderedIsStrip(s.filteredImages, PageOf(index), index);
      SelectedCoherent(Paginated(Rendered(t.(currentPage := PageOf(index)))), index);
    } else {
      RenderedIsStrip(s.filteredImages, s.currentPage, s.currentImageIndex);
      SelectedCoherent(t, index);
    }
  }

  /** When the selected image exists, navigation leaves exactly one thumbnail marked, the selected one. */
  lemma NavigatedShowsSelection(s: GalleryState, dir: Direction)
    requires Coherent(s) && s.currentImageIndex < |s.filteredImages|
    ensures var t := Navigated(s, dir);
      exists k :: 0 <= k < |t.thumbnails| && t.thumbnails[k].active &&
        t.thumbnails[k].index == t.currentImageIndex &&
        forall l :: 0 <= l < |t.thumbnails| && t.thumbnails[l].active ==> l == k
  {
    NavigatedCoherent(s, dir);
    var t := Navigated(s, dir);
    var i := t.currentImageIndex;
    ThumbnailOfEveryImage(t.filteredImages, i, i);
    ActiveThumbnail(t.filteredImages, t.currentPage, i);
    var k := i - PageOf(i) * ImagesPerPage;
    assert t.thumbnails[k].active && t.thumbnails[k].index == i;
  }

  /** `changePage` keeps the page coherent and steps the page as `StepPage` says; the selection stays. */
  lemma PageChangedCoherent(s: GalleryState, dir: Direction)
    requires Coherent(s)
    ensures var t := PageChanged(s, dir);
      Coherent(t) &&
      t.currentPage == StepPage(s.currentPage, |s.filteredImages|, dir) &&
      t.currentImageIndex == s.currentImageIndex && t.filteredImages == s.filteredImages &&
      t.pager == Some(PagerFor(t.currentPage, |t.filteredImages|)) &&
      t.imageNumber == s.imageNumber && t.imageSpecs == s.imageSpecs
  {
    RenderedIsStrip(s.filteredImages, StepPage(s.currentPage, |s.filteredImages|, dir), s.currentImageIndex);
  }

  /** A slideshow tick keeps the page coherent, moves as `TickIndex` says and shows the selection's page. */
  lemma TickedCoherent(s: GalleryState)
    requires Coherent(s)
    ensures var t := Ticked(s);
      Coherent(t) &&
      t.currentImageIndex == TickIndex(s.currentImageIndex, |s.filteredImages|) &&
      t.currentPage == PageOf(t.currentImageIndex) &&
      t.filteredImages == s.filteredImages && t.slideshowInterval == s.slideshowInterval &&
      (InRange(s) ==> InRange(t))
  {
    NavigatedCoherent(s, Next);
    var t := Navigated(s, Next);
    if t.currentImageIndex == |t.filteredImages| - 1 {
      RenderedIsStrip(t.filteredImages, 0, 0);
      SelectedCoherent(Paginated(Rendered(t.(currentImageIndex := 0, currentPage := 0))), 0);
    }
  }

  /** Starting records the new handle; stopping leaves no handle, whatever was running. */
  lemma StartStop(s: GalleryState, handle: nat)
    requires s.slideshowInterval.Some? ==> s.slideshowInterval.value > 0
    ensures Started(s, handle).slideshowInterval == Some(handle)
    ensures Stopped(s).slideshowInterval == None
    ensures Stopped(Stopped(s)) == Stopped(s)
    ensures Started(s, handle) == s.(slideshowInterval := Some(handle))
  {
  }

  class Gallery {
    /** `state.galleryImages`, injected once at start-up. */
    const galleryImages: seq<string>
    var filteredImages: seq<string>
    var sizeFilter: string
    var directionFilter: string
    var currentImageIndex: nat
    var currentPage: nat
    var slideshowInterval: Option<nat>
    /** The browser's live intervals that this gallery created. */
    ghost var liveTimers: set<nat>
    var thumbnails: seq<Thumbnail>
    var pager: Option<PagerView>
    var imageNumber: string
    var imageSpecs: Option<string>

    function State(): GalleryState
      reads this
    {
      GalleryState(galleryImages, filteredImages, sizeFilter, directionFilter,
                   currentImageIndex, currentPage, slideshowInterval,
                   thumbnails, pager, imageNumber, imageSpecs)
    }

    /** At most one interval is live, and it is the one the state records. */
    ghost predicate TimerValid()
      reads this
    {
      liveTimers == (if slideshowInterval.Some? then {slideshowInterval.value} else {}) &&
      (slideshowInterval.Some? ==> slideshowInterval.value > 0)
    }

    /** `initGallery`. */
    constructor (images: seq<string>)
      ensures State() == Initial(images)
      ensures Coherent(State()) && InRange(State()) && TimerValid() && liveTimers == {}
    {
      galleryImages := images;
      filteredImages := images;
      sizeFilter, directionFilter := "all", "all";
      currentImageIndex, currentPage := 0, 0;
      slideshowInterval := None;
      liveTimers := {};
      thumbnails, pager, imageNumber, imageSpecs := [], None, "", None;
      new;
      RenderGalleryThumbnails();
      UpdateGalleryInfo();
      InitialCoherent(images);
    }

    method RenderGalleryThumbnails()
      modifies this`thumbnails
      ensures State() == Rendered(old(State()))
    {
      thumbnails := Thumbnails(filteredImages, currentPage, currentImageIndex);
    }

    method UpdatePagination()
      modifies this`pager
      ensures State() == Paginated(old(State()))
    {
      var totalPages := TotalPages(|filteredImages|);
      var startIndex := currentPage * ImagesPerPage + 1;
      var endIndex := Min((currentPage + 1) * ImagesPerPage, |filteredImages|);
      pager := Some(PagerView(RangeText(startIndex, endIndex, |filteredImages|),
                              currentPage == 0, currentPage == totalPages as int - 1));
    }

    method UpdateGalleryInfo()
      modifies this`imageNumber, this`imageSpecs
      ensures State() == Informed(old(State()))
    {
      imageNumber := CountText(currentImageIndex, |filteredImages|);
      if currentImageIndex < |filteredImages| {
        var m := Parse(filteredImages[currentImageIndex]);
        if m.Some? {
          imageSpecs := Some(SpecsText(m.value));
        }
      }
    }

    method SelectGalleryImage(index: nat)
      modifies this`currentImageIndex, this`imageNumber, this`imageSpecs, this`thumbnails
      ensures State() == Selected(old(State()), index)
    {
      currentImageIndex := index;
      UpdateGalleryInfo();
      thumbnails := ToggleActive(thumbnails, currentPage, index);
    }

    method ApplyFilters()
      modifies this`filteredImages, this`currentPage, this`currentImageIndex
      modifies this`thumbnails, this`imageNumber, this`imageSpecs, this`pager
      ensures State() == Filtered(old(State()))
      ensures Coherent(State())
    {
      filteredImages := FilterImages(galleryImages, sizeFilter, directionFilter);
      currentPage := 0;
      currentImageIndex := 0;
      RenderGalleryThumbnails();
      UpdateGalleryInfo();
      UpdatePagination();
      FilteredCoherent(old(State()));
    }

    /** A filter button: `state.filters[filterType] = filterValue`, then `applyFilters`. */
    method SetFilter(kind: FilterKind, value: string)
      modifies this`sizeFilter, this`directionFilter
      modifies this`filteredImages, this`currentPage, this`currentImageIndex
      modifies this`thumbnails, this`imageNumber, this`imageSpecs, this`pager
      ensures State() == WithFilter(old(State()), kind, value)
      ensures Coherent(State())
    {
      match kind {
        case Size => sizeFilter := value;
        case Direction => directionFilter := value;
      }
      ApplyFilters();
    }

    method NavigateGallery(dir: Direction)
      modifies this`currentImageIndex, this`currentPage, this`imageNumber, this`imageSpecs
      modifies this`thumbnails, this`pager
      ensures State() == Navigated(old(State()), dir)
      ensures old(Coherent(State())) ==> Coherent(State())
    {
      ghost var s := State();
      match dir {
        case Next =>
          if currentImageIndex + 1 < |filteredImages| {
            currentImageIndex := currentImageIndex + 1;
          }
        case Prev =>
          if currentImageIndex > 0 {
            currentImageIndex := currentImageIndex - 1;
          }
      }
      assert State() == s.(currentImageIndex := NavigateIndex(s.currentImageIndex, |filteredImages|, dir));
      var targetPage := currentImageIndex / ImagesPerPage;
      if targetPage != currentPage {
        currentPage := targetPage;
        RenderGalleryThumbnails();
        UpdatePagination();
      }
      SelectGalleryImage(currentImageIndex);
      if Coherent(s) {
        NavigatedCoherent(s, dir);
      }
    }

    method ChangePage(dir: Direction)
      modifies this`currentPage, this`thumbnails, this`pager
      ensures State() == PageChanged(old(State()), dir)
      ensures old(Coherent(State())) ==> Coherent(State())
    {
      ghost var s := State();
      var totalPages := TotalPages(|filteredImages|);
      match dir {
        case Next =>
          if currentPage + 1 < totalPages {
            currentPage := currentPage + 1;
          }
        case Prev =>
          if currentPage > 0 {
            currentPage := currentPage - 1;
          }
      }
      assert State() == s.(currentPage := StepPage(s.currentPage, |filteredImages|, dir));
      RenderGalleryThumbnails();
      UpdatePagination();
      if Coherent(s) {
        PageChangedCoherent(s, dir);
      }
    }

    method StopSlideshow()
      modifies this`slideshowInterval, this`liveTimers
      ensures State() == Stopped(old(State()))
      ensures old(TimerValid()) ==> TimerValid() && liveTimers == {}
    {
      if slideshowInterval.Some? && slideshowInterval.value != 0 {
        liveTimers := liveTimers - {slideshowInterval.value};
        slideshowInterval := None;
      }
    }

    /** `handle` stands for what `setInterval` returns: positive, and not live already. */
    method StartSlideshow(handle: nat)
      requires handle > 0
      modifies this`slideshowInterval, this`liveTimers
      ensures State() == Started(old(State()), handle)
      ensures old(TimerValid()) ==> TimerValid() && liveTimers == {handle}
    {
      StopSlideshow();
      liveTimers := liveTimers + {handle};
      slideshowInterval := Some(handle);
    }

    method SlideshowTick()
      modifies this`currentImageIndex, this`currentPage, this`imageNumber, this`imageSpecs
      modifies this`thumbnails, this`pager
      ensures State() == Ticked(old(State()))
      ensures old(Coherent(State())) ==> Coherent(State())
    {
      ghost var s := State();
      NavigateGallery(Next);
      ghost var t := State();
      if currentImageIndex == |filteredImages| - 1 {
        currentImageIndex := 0;
        currentPage := 0;
        ghost var u := State();
        assert u == t.(currentImageIndex := 0, currentPage := 0);
        RenderGalleryThumbnails();
        UpdatePagination();
        assert State() == Paginated(Rendered(u));
        SelectGalleryImage(0);
        assert State() == Selected(Paginated(Rendered(u)), 0);
      }
      assert State() == Ticked(s);
      if Coherent(s) {
        TickedCoherent(s);
      }
    }
  }
}
