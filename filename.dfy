/**
 * Image-filename metadata and the gallery filter.
 *
 * A gallery filename such as `パース外観　28-40-N-12-001.jpg` encodes a plot
 * size in tsubo and a compass direction.  The presentation recovers them with
 * the unanchored regular expression `(\d+)-\d+-([NESW])-`, taking the leftmost
 * match; a filename without a match is "generic" and passes every filter.
 */
module FileName {
  import opened Common
  import opened Decimal

  /** The two capture groups of a match: the size digits and the direction letter. */
  datatype Capture = Capture(size: string, direction: char)

  predicate IsCompass(c: char) {
    c == 'N' || c == 'E' || c == 'S' || c == 'W'
  }

  /** The end of the maximal run of digits that starts at `i`. */
  function RunEnd(s: string, i: nat): (j: nat)
    requires i <= |s|
    ensures i <= j <= |s| && AllDigits(s[i..j])
    ensures j < |s| ==> !IsDigit(s[j])
  {
    var k := DigitPrefix(s[i..]);
    assert s[i..][..k] == s[i..i + k];
    i + k
  }

  /**
   * The regular expression tried at start position `i`.  A greedy `\d+` that
   * must be followed by `-` can only succeed with the whole digit run (any
   * shorter run is followed by another digit), so backtracking never finds a
   * second way to match and the attempt is deterministic.
   */
  function MatchAt(s: string, i: nat): Option<Capture>
    requires i <= |s|
  {
    var j := RunEnd(s, i);
    if j == i || j >= |s| || s[j] != '-' then None
    else
      var m := RunEnd(s, j + 1);
      if m == j + 1 || m + 2 >= |s| || s[m] != '-' || !IsCompass(s[m + 1]) || s[m + 2] != '-' then None
      else Some(Capture(s[i..j], s[m + 1]))
  }

  /** Tries every start position from `i` on, in order, as `String.prototype.match` does. */
  function FindFrom(s: string, i: nat): Option<Capture>
    requires i <= |s|
    decreases |s| - i
  {
    if i == |s| then None
    else match MatchAt(s, i)
      case Some(c) => Some(c)
      case None => FindFrom(s, i + 1)
  }

  /** `name.match(/(\d+)-\d+-([NESW])-/)`, reduced to its two capture groups. */
  function Parse(name: string): Option<Capture> {
    FindFrom(name, 0)
  }

  // ----- The pattern, stated independently of the scanner -----

  /** The text at `i` reads `size-depth-dir-` with non-empty digit strings `size` and `depth`. */
  ghost predicate PatternAt(s: string, i: nat, size: string, depth: string, dir: char) {
    |size| > 0 && AllDigits(size) && |depth| > 0 && AllDigits(depth) && IsCompass(dir) &&
    i <= |s| && size + ['-'] + depth + ['-', dir, '-'] <= s[i..]
  }

  /** Some match of the pattern starts at `i` with capture groups `c`. */
  ghost predicate MatchesAt(s: string, i: nat, c: Capture) {
    exists depth :: PatternAt(s, i, c.size, depth, c.direction)
  }

  /** No match of the pattern starts before `k`. */
  ghost predicate NoMatchBefore(s: string, k: nat) {
    forall j: nat, c: Capture :: j < k ==> !MatchesAt(s, j, c)
  }

  lemma RunEndAt(s: string, i: nat, k: nat)
    requires i <= k < |s| && AllDigits(s[i..k]) && !IsDigit(s[k])
    ensures RunEnd(s, i) == k
  {
    assert s[i..] == s[i..k] + s[k..];
    DigitPrefixOf(s[i..k], s[k..]);
  }

  lemma MatchAtSound(s: string, i: nat)
    requires i <= |s| && MatchAt(s, i).Some?
    ensures MatchesAt(s, i, MatchAt(s, i).value)
  {
    var j := RunEnd(s, i);
    var m := RunEnd(s, j + 1);
    var c := MatchAt(s, i).value;
    var depth := s[j + 1..m];
    assert c.size + ['-'] + depth + ['-', c.direction, '-'] == s[i..m + 3];
    assert PatternAt(s, i, c.size, depth, c.direction);
  }

  /** `MatchAt` succeeds once both digit runs end where the pattern's separators are. */
  lemma MatchAtRuns(s: string, i: nat, j: nat, m: nat)
    requires i < j < m && m + 2 < |s| && RunEnd(s, i) == j && RunEnd(s, j + 1) == m && j + 1 < m
    requires s[j] == '-' && s[m] == '-' && IsCompass(s[m + 1]) && s[m + 2] == '-'
    ensures MatchAt(s, i) == Some(Capture(s[i..j], s[m + 1]))
  {
  }

  lemma MatchAtComplete(s: string, i: nat, size: string, depth: string, dir: char)
    requires PatternAt(s, i, size, depth, dir)
    ensures MatchAt(s, i) == Some(Capture(size, dir))
  {
    var w := size + ['-'] + depth + ['-', dir, '-'];
    var j := i + |size|;
    var m := j + 1 + |depth|;
    assert s[i..i + |w|] == w;
    assert s[i..j] == size;
    assert s[j] == '-';
    RunEndAt(s, i, j);
    assert s[j + 1..m] == depth;
    assert s[m] == '-' && s[m + 1] == dir && s[m + 2] == '-';
    RunEndAt(s, j + 1, m);
    MatchAtRuns(s, i, j, m);
  }

  /** The scanner and the pattern agree at every position. */
  lemma MatchAtIff(s: string, i: nat, c: Capture)
    requires i <= |s|
    ensures MatchAt(s, i) == Some(c) <==> MatchesAt(s, i, c)
  {
    if MatchAt(s, i) == Some(c) {
      MatchAtSound(s, i);
    }
    if MatchesAt(s, i, c) {
      var depth :| PatternAt(s, i, c.size, depth, c.direction);
      MatchAtComplete(s, i, c.size, depth, c.direction);
    }
  }

  /** A successful scan stops at a match with no match between its start and that position. */
  lemma {:induction false} FindFromFirst(s: string, i: nat)
    requires i <= |s| && FindFrom(s, i).Some?
    ensures exists k :: i <= k < |s| && MatchAt(s, k) == FindFrom(s, i) &&
                        forall j :: i <= j < k ==> MatchAt(s, j).None?
    decreases |s| - i
  {
    var r := MatchAt(s, i);
    if r.None? {
      assert FindFrom(s, i) == FindFrom(s, i + 1);
      FindFromFirst(s, i + 1);
      var k :| i + 1 <= k < |s| && MatchAt(s, k) == FindFrom(s, i + 1) &&
               forall j :: i + 1 <= j < k ==> MatchAt(s, j).None?;
      assert forall j :: i <= j < k ==> MatchAt(s, j).None?;
    } else {
      assert MatchAt(s, i) == FindFrom(s, i);
    }
  }

  /** A failed scan found no match at any position it passed. */
  lemma {:induction false} FindFromNone(s: string, i: nat)
    requires i <= |s| && FindFrom(s, i).None?
    ensures forall j :: i <= j <= |s| ==> MatchAt(s, j).None?
    decreases |s| - i
  {
    if i < |s| {
      FindFromNone(s, i + 1);
    }
  }

  lemma {:induction false} FindFromReaches(s: string, i: nat, k: nat)
    requires i <= k <= |s| && MatchAt(s, k).Some?
    requires forall j :: i <= j < k ==> MatchAt(s, j).None?
    ensures FindFrom(s, i) == MatchAt(s, k)
    decreases k - i
  {
    if i < k {
      FindFromReaches(s, i + 1, k);
    }
  }

  /** A scan over positions that all fail finds nothing. */
  lemma {:induction false} FindFromNoneOf(s: string, i: nat)
    requires i <= |s|
    requires forall j :: i <= j < |s| ==> MatchAt(s, j).None?
    ensures FindFrom(s, i).None?
    decreases |s| - i
  {
    if i < |s| {
      FindFromNoneOf(s, i + 1);
    }
  }

  /** A non-digit at `k` cannot start a match. */
  lemma NoMatchAtNonDigit(s: string, k: nat)
    requires k < |s| && !IsDigit(s[k])
    ensures MatchAt(s, k).None?
  {
    assert s[k..][0] == s[k];
    assert RunEnd(s, k) == k;
  }

  /** The unanchored search passes over any digit-free prefix. */
  lemma SkipsDigitFreePrefix(s: string, p: nat)
    requires p <= |s| && MatchAt(s, p).Some?
    requires forall j :: 0 <= j < p ==> !IsDigit(s[j])
    ensures Parse(s) == MatchAt(s, p)
  {
    forall j | 0 <= j < p ensures MatchAt(s, j).None? {
      NoMatchAtNonDigit(s, j);
    }
    FindFromReaches(s, 0, p);
  }

  /** `Parse` returns the capture groups of the leftmost match, and only those. */
  lemma ParseIsLeftmostMatch(name: string, c: Capture)
    ensures Parse(name) == Some(c) <==>
      exists k: nat :: k <= |name| && MatchesAt(name, k, c) && NoMatchBefore(name, k)
  {
    if Parse(name) == Some(c) {
      FindFromFirst(name, 0);
      var k :| 0 <= k < |name| && MatchAt(name, k) == Some(c) &&
               forall j :: 0 <= j < k ==> MatchAt(name, j).None?;
      MatchAtIff(name, k, c);
      forall j: nat, c': Capture | j < k ensures !MatchesAt(name, j, c') {
        MatchAtIff(name, j, c');
      }
    }
    if exists k: nat :: k <= |name| && MatchesAt(name, k, c) && NoMatchBefore(name, k) {
      var k: nat :| k <= |name| && MatchesAt(name, k, c) && NoMatchBefore(name, k);
      MatchAtIff(name, k, c);
      forall j | 0 <= j < k ensures MatchAt(name, j).None? {
        var r := MatchAt(name, j);
        MatchAtIff(name, j, if r.Some? then r.value else c);
      }
      FindFromReaches(name, 0, k);
    }
  }

  /** A filename has no metadata exactly when the pattern matches nowhere in it. */
  lemma ParseNoneIff(name: string)
    ensures Parse(name).None? <==> forall k: nat, c: Capture :: k <= |name| ==> !MatchesAt(name, k, c)
  {
    if Parse(name).None? {
      FindFromNone(name, 0);
      forall k: nat, c: Capture | k <= |name| ensures !MatchesAt(name, k, c) {
        MatchAtIff(name, k, c);
      }
    } else {
      FindFromFirst(name, 0);
      var c := Parse(name).value;
      var k :| 0 <= k < |name| && MatchAt(name, k) == Some(c);
      MatchAtIff(name, k, c);
    }
  }

  /** The captures of a match are a non-empty digit string and a compass letter. */
  lemma ParseWellFormed(name: string)
    requires Parse(name).Some?
    ensures |Parse(name).value.size| > 0 && AllDigits(Parse(name).value.size)
    ensures IsCompass(Parse(name).value.direction)
  {
    FindFromFirst(name, 0);
  }

  // ----- The filter -----

  /**
   * The predicate passed to `galleryImages.filter`: a generic filename is always
   * kept; otherwise the size must equal the size filter (or the filter is
   * `'all'`) and the direction letter must equal the direction filter (or it
   * is `'all'`).  Both comparisons are on strings.
   */
  predicate Keeps(name: string, size: string, direction: string) {
    match Parse(name)
    case None => true
    case Some(c) => (size == "all" || c.size == size) && (direction == "all" || [c.direction] == direction)
  }

  /** `galleryImages.filter(...)`. */
  function FilterImages(images: seq<string>, size: string, direction: string): seq<string> {
    if images == [] then []
    else
      (if Keeps(images[0], size, direction) then [images[0]] else []) + FilterImages(images[1..], size, direction)
  }

  /** The filtered list holds exactly the kept filenames, and is no longer than the input. */
  lemma {:induction false} FilterMembers(images: seq<string>, size: string, direction: string)
    ensures |FilterImages(images, size, direction)| <= |images|
    ensures forall x :: x in FilterImages(images, size, direction) <==> x in images && Keeps(x, size, direction)
  {
    if images != [] {
      FilterMembers(images[1..], size, direction);
      assert images == [images[0]] + images[1..];
    }
  }

  /** `a` is `b` with some elements left out, the rest kept in their order. */
  ghost predicate IsSubsequence<T>(a: seq<T>, b: seq<T>)
    decreases |b|
  {
    a == [] || (b != [] && ((a[0] == b[0] && IsSubsequence(a[1..], b[1..])) || IsSubsequence(a, b[1..])))
  }

  lemma {:induction false} FilterIsSubsequence(images: seq<string>, size: string, direction: string)
    ensures IsSubsequence(FilterImages(images, size, direction), images)
  {
    if images != [] {
      FilterIsSubsequence(images[1..], size, direction);
      var rest := FilterImages(images[1..], size, direction);
      if Keeps(images[0], size, direction) {
        assert ([images[0]] + rest)[1..] == rest;
      } else {
        assert FilterImages(images, size, direction) == rest;
      }
    }
  }

  /** Every occurrence of a kept filename survives, and none of a dropped one. */
  lemma {:induction false} FilterCounts(images: seq<string>, size: string, direction: string, x: string)
    ensures multiset(FilterImages(images, size, direction))[x] ==
            if Keeps(x, size, direction) then multiset(images)[x] else 0
  {
    if images != [] {
      FilterCounts(images[1..], size, direction, x);
      assert images == [images[0]] + images[1..];
    }
  }

  /** With both filters at `'all'` nothing is dropped. */
  lemma {:induction false} FilterAllKeepsAll(images: seq<string>)
    ensures FilterImages(images, "all", "all") == images
  {
    if images != [] {
      FilterAllKeepsAll(images[1..]);
    }
  }

  /** Filtering twice with the same filters is filtering once. */
  lemma {:induction false} FilterIdempotent(images: seq<string>, size: string, direction: string)
    ensures FilterImages(FilterImages(images, size, direction), size, direction) == FilterImages(images, size, direction)
  {
    if images != [] {
      FilterIdempotent(images[1..], size, direction);
      var x := images[0];
      var rest := FilterImages(images[1..], size, direction);
      if Keeps(x, size, direction) {
        var r := [x] + rest;
        assert r[0] == x && r[1..] == rest;
        assert FilterImages(r, size, direction) == [x] + FilterImages(rest, size, direction);
      } else {
        assert FilterImages(images, size, direction) == rest;
      }
    }
  }
}
