/**
 * Concrete cases of the presentation's behaviour, stated on the model's
 * functions: the forty-image gallery's pagination, a filename's metadata and
 * the info text built from it, the slideshow over short lists, and the deck's
 * first-section and last-section boundaries.
 */
module Scenarios {
  import opened Common
  import opened FileName
  import opened GalleryView
  import opened GalleryBrowser
  import SectionNavigator

  /** Forty images fill three pages: 1-18, 19-36 and 37-40. */
  lemma FortyImagesFirstPage()
    ensures TotalPages(40) == 3
    ensures PagerFor(0, 40) == PagerView("1-18 / 40", true, false)
  {
    assert Decimal.NatToString(18) == "18" && Decimal.NatToString(40) == "40";
  }

  lemma FortyImagesSecondPage()
    ensures PagerFor(1, 40) == PagerView("19-36 / 40", false, false)
  {
    assert Decimal.NatToString(19) == "19" && Decimal.NatToString(36) == "36";
    assert Decimal.NatToString(40) == "40";
  }

  lemma FortyImagesLastPage()
    ensures PagerFor(2, 40) == PagerView("37-40 / 40", false, true)
  {
    assert Decimal.NatToString(37) == "37" && Decimal.NatToString(40) == "40";
  }

  /** One of the gallery's filenames. */
  const SampleName: string := "パース外観　30-54-N-12-012.jpg"

  lemma SamplePrefixDigitFree()
    ensures forall j :: 0 <= j < 6 ==> !Decimal.IsDigit(SampleName[j])
  {
  }

  lemma SampleMatchAfterPrefix()
    ensures MatchAt(SampleName, 6) == Some(Capture("30", 'N'))
  {
    assert SampleName[6..][..8] == "30" + ['-'] + "54" + ['-', 'N', '-'];
    MatchAtComplete(SampleName, 6, "30", "54", 'N');
  }

  /** A gallery filename: the search skips the non-digit prefix and finds size 30, facing north. */
  lemma SampleFilename(name: string)
    requires name == SampleName
    ensures Parse(name) == Some(Capture("30", 'N'))
  {
    SamplePrefixDigitFree();
    SampleMatchAfterPrefix();
    SkipsDigitFreePrefix(name, 6);
  }

  /** A generic filename carries no metadata. */
  lemma GenericFilename()
    ensures Parse("外観2.jpg") == None
  {
    var name := "外観2.jpg";
    forall k | 0 <= k < |name| && k != 2 ensures MatchAt(name, k).None? {
      NoMatchAtNonDigit(name, k);
    }
    assert name[2..][1] == '.';
    assert RunEnd(name, 2) == 3;
    assert MatchAt(name, 2).None?;
    FindFromNoneOf(name, 0);
  }

  lemma SampleSpecsText()
    ensures SpecsText(Capture("30", 'N')) == "30\U{576A} \U{2022} \U{5317}\U{5411}\U{304D}"
  {
  }

  /** Selecting that filename writes "30坪 • 北向き" into the specs span. */
  lemma SampleSpecs(name: string)
    requires name == SampleName
    ensures SpecsFor([name], 0) == Some("30\U{576A} \U{2022} \U{5317}\U{5411}\U{304D}")
  {
    SampleFilename(name);
    SampleSpecsText();
  }

  /** Two images: the slideshow stays on the first; three: it alternates between the first two. */
  lemma ShortSlideshows()
    ensures TickIndex(0, 2) == 0
    ensures TickIndex(0, 3) == 1 && TickIndex(1, 3) == 0
  {
  }

  /** At section 1 "previous" does nothing; "End" jumps to the last section. */
  lemma DeckBoundaries(present: set<int>)
    ensures SectionNavigator.Navigate(SectionNavigator.Initial(), Prev, present) == SectionNavigator.Initial()
    ensures SectionNavigator.HandleKey(SectionNavigator.Initial(), "End", present).0.section == SectionNavigator.TotalSections
  {
  }
}
