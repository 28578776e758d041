/**
 * The gallery's derived views: page arithmetic, the thumbnail strip of a page,
 * the pagination control and the two info texts.  Each is a pure projection
 * of the gallery state; the texts can be read back, which shows that they
 * carry exactly the numbers they are built from.
 */
module GalleryView {
  import opened Common
  import opened Decimal
  import opened FileName

  /** `state.imagesPerPage`. */
  const ImagesPerPage: nat := 18

  /** `Math.ceil(len / imagesPerPage)`. */
  function TotalPages(len: nat): (n: nat)
    ensures len <= n * ImagesPerPage
    ensures n > 0 ==> (n - 1) * ImagesPerPage < len
  {
    (len + ImagesPerPage - 1) / ImagesPerPage
  }

  /** `Math.floor(index / imagesPerPage)`: the page that shows image `index`. */
  function PageOf(index: nat): (p: nat)
    ensures p * ImagesPerPage <= index < (p + 1) * ImagesPerPage
  {
    index / ImagesPerPage
  }

  /** The page of an existing image is an existing page. */
  lemma PageOfExists(index: nat, len: nat)
    requires index < len
    ensures PageOf(index) < TotalPages(len)
  {
  }

  function Min(a: int, b: int): int {
    if a <= b then a else b
  }

  /**
   * `filteredImages.slice(startIndex, endIndex)` with `startIndex = page * imagesPerPage`
   * and `endIndex = Math.min(startIndex + imagesPerPage, length)`; a start past the
   * end gives the empty slice, as in JavaScript.
   */
  function PageSlice<T>(xs: seq<T>, page: nat): (r: seq<T>)
    ensures |r| == if page * ImagesPerPage < |xs| then Min(ImagesPerPage, |xs| - page * ImagesPerPage) else 0
    ensures forall k :: 0 <= k < |r| ==> page * ImagesPerPage + k < |xs| && r[k] == xs[page * ImagesPerPage + k]
  {
    var start := page * ImagesPerPage;
    if start < |xs| then xs[start..Min(start + ImagesPerPage, |xs|)] else []
  }

  // ----- Thumbnails -----

  /** One rendered thumbnail: its index into the filtered list, its filename, and the `active` class. */
  datatype Thumbnail = Thumbnail(index: nat, name: string, active: bool)

  /** What `renderGalleryThumbnails` puts on screen for `page` while `current` is selected. */
  function Thumbnails(images: seq<string>, page: nat, current: nat): (r: seq<Thumbnail>)
    ensures |r| <= ImagesPerPage
    ensures forall k :: 0 <= k < |r| ==>
      r[k].index == page * ImagesPerPage + k && r[k].index < |images| &&
      r[k].name == images[r[k].index] && (r[k].active <==> r[k].index == current)
  {
    var slice := PageSlice(images, page);
    seq(|slice|, k requires 0 <= k < |slice| =>
      Thumbnail(page * ImagesPerPage + k, slice[k], page * ImagesPerPage + k == current))
  }

  /** Every image has a thumbnail, on the page `PageOf` names, at its offset within that page. */
  lemma ThumbnailOfEveryImage(images: seq<string>, i: nat, current: nat)
    requires i < |images|
    ensures var t := Thumbnails(images, PageOf(i), current);
      i - PageOf(i) * ImagesPerPage < |t| &&
      t[i - PageOf(i) * ImagesPerPage] == Thumbnail(i, images[i], i == current)
  {
  }

  /** At most one thumbnail is active, and one is exactly when the selected image is on the page. */
  lemma {:induction false} ActiveThumbnail(images: seq<string>, page: nat, current: nat)
    ensures var t := Thumbnails(images, page, current);
      forall k, l :: 0 <= k < |t| && 0 <= l < |t| && t[k].active && t[l].active ==> k == l
    ensures var t := Thumbnails(images, page, current);
      (exists k :: 0 <= k < |t| && t[k].active) <==> (current < |images| && PageOf(current) == page)
  {
    var t := Thumbnails(images, page, current);
    if current < |images| && PageOf(current) == page {
      var k := current - page * ImagesPerPage;
      assert |t| == Min(ImagesPerPage, |images| - page * ImagesPerPage);
      assert t[k].active;
    }
  }

  /** `thumb.classList.toggle('active', globalIndex === index)` over the rendered strip. */
  function ToggleActive(thumbs: seq<Thumbnail>, page: nat, index: nat): (r: seq<Thumbnail>)
    ensures |r| == |thumbs|
  {
    seq(|thumbs|, k requires 0 <= k < |thumbs| => thumbs[k].(active := page * ImagesPerPage + k == index))
  }

  /** `ts` shows the thumbnails of `page`, whichever of them are marked active. */
  predicate StripOf(ts: seq<Thumbnail>, images: seq<string>, page: nat) {
    var rendered := Thumbnails(images, page, 0);
    |ts| == |rendered| &&
    forall k :: 0 <= k < |ts| ==> ts[k].index == rendered[k].index && ts[k].name == rendered[k].name
  }

  lemma RenderedIsStrip(images: seq<string>, page: nat, current: nat)
    ensures StripOf(Thumbnails(images, page, current), images, page)
  {
  }

  /** Re-marking a page's strip for a new selection gives what a fresh render would. */
  lemma ToggleRerenders(ts: seq<Thumbnail>, images: seq<string>, page: nat, index: nat)
    requires StripOf(ts, images, page)
    ensures ToggleActive(ts, page, index) == Thumbnails(images, page, index)
  {
  }

  // ----- Pagination control -----

  /** The 1-based first and last image numbers `updatePagination` shows for `page`. */
  function PageRange(page: nat, len: nat): (nat, nat) {
    (page * ImagesPerPage + 1, Min((page + 1) * ImagesPerPage, len))
  }

  /** `${a} / ${b}`: the shape shared by the image counter and the end of the pagination text. */
  function SlashText(a: nat, b: nat): string {
    NatToString(a) + " / " + NatToString(b)
  }

  /** `${startIndex}-${endIndex} / ${total}`. */
  function RangeText(first: nat, last: nat, total: nat): string {
    NatToString(first) + "-" + SlashText(last, total)
  }

  /** The pagination text and the disabled state of its prev and next buttons. */
  datatype PagerView = PagerView(text: string, prevDisabled: bool, nextDisabled: bool)

  function PagerFor(page: nat, len: nat): (v: PagerView)
    ensures v.prevDisabled <==> page == 0
    ensures v.nextDisabled <==> page + 1 == TotalPages(len)
  {
    var (first, last) := PageRange(page, len);
    PagerView(RangeText(first, last, len), page == 0, page == TotalPages(len) - 1)
  }

  /** On an existing page the range text names exactly the thumbnails shown, and the
      next button is disabled exactly on the page that shows the last image. */
  lemma PagerDescribesPage<T>(xs: seq<T>, page: nat)
    requires page < TotalPages(|xs|)
    ensures var (first, last) := PageRange(page, |xs|);
      1 <= first <= last <= |xs| && first - 1 == page * ImagesPerPage &&
      last - first + 1 == |PageSlice(xs, page)| &&
      (PagerFor(page, |xs|).nextDisabled <==> last == |xs|)
  {
  }

  /** Consumes the literal `lit` at the front of `s`. */
  function Expect(s: string, lit: string): (r: Option<string>)
    ensures r.Some? ==> s == lit + r.value
  {
    if lit <= s then Some(s[|lit|..]) else None
  }

  lemma ExpectLiteral(lit: string, rest: string)
    ensures Expect(lit + rest, lit) == Some(rest)
  {
    assert (lit + rest)[..|lit|] == lit;
  }

  function ParseSlashText(t: string): Option<(nat, nat)> {
    match ReadNat(t)
    case None => None
    case Some((a, r1)) =>
      match Expect(r1, " / ")
      case None => None
      case Some(r2) =>
        match ReadNat(r2)
        case None => None
        case Some((b, r3)) => if r3 == [] then Some((a, b)) else None
  }

  lemma SlashTextRoundTrip(a: nat, b: nat)
    ensures ParseSlashText(SlashText(a, b)) == Some((a, b))
  {
    var c := NatToString(b);
    var t := SlashText(a, b);
    assert t == NatToString(a) + (" / " + c);
    ReadNatToString(a, " / " + c);
    assert ReadNat(t) == Some((a, " / " + c));
    ExpectLiteral(" / ", c);
    ReadNatToString(b, []);
    assert c + [] == c;
    assert ReadNat(c) == Some((b, []));
  }

  /** Reads a pagination text back into its three numbers. */
  function ParseRangeText(t: string): Option<(nat, nat, nat)> {
    match ReadNat(t)
    case None => None
    case Some((first, r1)) =>
      match Expect(r1, "-")
      case None => None
      case Some(r2) =>
        match ParseSlashText(r2)
        case None => None
        case Some((last, total)) => Some((first, last, total))
  }

  lemma RangeTextRoundTrip(first: nat, last: nat, total: nat)
    ensures ParseRangeText(RangeText(first, last, total)) == Some((first, last, total))
  {
    var r2 := SlashText(last, total);
    var t := RangeText(first, last, total);
    assert t == NatToString(first) + ("-" + r2);
    ReadNatToString(first, "-" + r2);
    assert ReadNat(t) == Some((first, "-" + r2));
    ExpectLiteral("-", r2);
    SlashTextRoundTrip(last, total);
  }

  // ----- Info texts -----

  /** The image counter `${currentImageIndex + 1} / ${filteredImages.length}`. */
  function CountText(index: nat, len: nat): string {
    SlashText(index + 1, len)
  }

  /** The counter names the 1-based position of the selected image and the length of the list. */
  lemma CountTextRoundTrip(index: nat, len: nat)
    ensures ParseSlashText(CountText(index, len)) == Some((index + 1, len))
  {
    SlashTextRoundTrip(index + 1, len);
  }

  /** `directionMap[direction] || direction` with the map N→北, E→東, S→南, W→西. */
  function Label(d: char): char {
    match d
    case 'N' => '\U{5317}'
    case 'E' => '\U{6771}'
    case 'S' => '\U{5357}'
    case 'W' => '\U{897F}'
    case _ => d
  }

  /** The compass letter a label stands for. */
  function Unlabel(l: char): Option<char> {
    match l
    case '\U{5317}' => Some('N')
    case '\U{6771}' => Some('E')
    case '\U{5357}' => Some('S')
    case '\U{897F}' => Some('W')
    case _ => None
  }

  /** The text between the size and the label: 坪, a space, a bullet and a space. */
  const Tsubo: string := "\U{576A} \U{2022} "
  /** The text after the label: 向き ("facing"). */
  const Facing: string := "\U{5411}\U{304D}"

  /** `${size}坪 • ${label}向き`. */
  function SpecsText(c: Capture): string {
    c.size + Tsubo + [Label(c.direction)] + Facing
  }

  function ParseSpecsText(t: string): Option<Capture> {
    var k := DigitPrefix(t);
    var rest := t[k..];
    if k == 0 || |rest| != 7 || rest[..4] != Tsubo || rest[5..] != Facing then None
    else match Unlabel(rest[4])
      case None => None
      case Some(d) => Some(Capture(t[..k], d))
  }

  /** The specs text determines the size and direction it was written from. */
  lemma SpecsTextRoundTrip(c: Capture)
    requires |c.size| > 0 && AllDigits(c.size) && IsCompass(c.direction)
    ensures ParseSpecsText(SpecsText(c)) == Some(c)
  {
    var t := SpecsText(c);
    var rest := Tsubo + [Label(c.direction)] + Facing;
    assert t == c.size + rest;
    DigitPrefixOf(c.size, rest);
    assert t[..|c.size|] == c.size && t[|c.size|..] == rest;
    assert rest[..4] == Tsubo && rest[5..] == Facing && rest[4] == Label(c.direction);
  }

  /** What `updateGalleryInfo` writes into the specs span, or `None` when it leaves the span alone
      (no image at the index, or a generic filename). */
  function SpecsFor(images: seq<string>, index: nat): Option<string> {
    if index < |images| then
      match Parse(images[index])
      case None => None
      case Some(c) => Some(SpecsText(c))
    else None
  }
}
