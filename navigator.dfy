/**
 * The section navigator: a deck of `TotalSections` full-screen sections, one
 * of which is current, with an `isAnimating` latch that rejects every
 * navigation intent while a cross-fade is in flight.
 *
 * The fades themselves belong to the animation library.  What matters to the
 * state machine is the continuation the incoming fade carries: it is
 * registered only when the target section's element exists, and it is the
 * only thing that ever clears the latch.  Here that continuation is the
 * `entering` component of the state and `Complete` (the method
 * `CompleteTransition`) is its invocation.
 */
module SectionNavigator {
  import opened Common
  import opened Decimal

  /** `CONFIG.totalSections`. */
  const TotalSections: nat := 15

  /**
   * The navigator's state together with the controls it writes: the two
   * navigation buttons' `disabled` flags and the progress texts.
   * `entering == Some(n)` means the fade-in of section `n` is running and its
   * completion callback is registered.
   */
  datatype Nav = Nav(
    section: nat,
    animating: bool,
    entering: Option<int>,
    prevDisabled: bool,
    nextDisabled: bool,
    progressCurrent: string,
    progressTotal: string)

  /** The buttons and progress texts agree with the current section. */
  predicate Shown(s: Nav) {
    s.prevDisabled == (s.section == 1) && s.nextDisabled == (s.section == TotalSections) &&
    s.progressCurrent == NatToString(s.section) && s.progressTotal == NatToString(TotalSections)
  }

  /** The invariant every reachable state keeps. */
  predicate Consistent(s: Nav) {
    1 <= s.section <= TotalSections &&
    (s.entering.Some? ==> s.animating && s.entering.value == s.section) &&
    Shown(s)
  }

  /** `updateProgress`: the current and total section numbers as text. */
  function WithProgress(s: Nav): Nav {
    s.(progressCurrent := NatToString(s.section), progressTotal := NatToString(TotalSections))
  }

  /** `updateButtonStates`. */
  function WithButtonStates(s: Nav): Nav {
    s.(prevDisabled := s.section == 1, nextDisabled := s.section == TotalSections)
  }

  /** The state after `init()`: section 1, idle, controls written. */
  function Initial(): (r: Nav)
    ensures Consistent(r) && r.section == 1 && !r.animating
  {
    WithButtonStates(WithProgress(Nav(1, false, None, false, false, "", "")))
  }

  /**
   * `goToSection(n)`.  `present` is the set of section numbers that have a
   * `[data-section]` element.  A target out of range, or any call while the
   * latch is set, changes nothing.  Otherwise the latch is set and the section
   * changes, also when `n` is already the current section; the completion
   * callback is registered only when section `n` has an element.
   */
  function GoTo(s: Nav, n: int, present: set<int>): (r: Nav)
    ensures n < 1 || n > TotalSections || s.animating ==> r == s
    ensures 1 <= n <= TotalSections && !s.animating ==>
      r.section == n && r.animating &&
      r.entering == (if n in present then Some(n) else s.entering) &&
      (r.prevDisabled <==> n == 1) && (r.nextDisabled <==> n == TotalSections) && Shown(r)
    ensures Consistent(s) ==> Consistent(r)
  {
    if n < 1 || n > TotalSections || s.animating then s
    else
      var started := s.(animating := true, entering := if n in present then Some(n) else s.entering);
      WithButtonStates(WithProgress(started.(section := n)))
  }

  /**
   * `navigateSection(direction)`: a no-op while animating or at the boundary in
   * the requested direction; otherwise `goToSection` of the neighbouring section.
   */
  function Navigate(s: Nav, dir: Direction, present: set<int>): (r: Nav)
    ensures s.animating ==> r == s
    ensures (dir == Next && s.section >= TotalSections) || (dir == Prev && s.section <= 1) ==> r == s
    ensures !s.animating && dir == Next && s.section < TotalSections ==> r == GoTo(s, s.section + 1, present)
    ensures !s.animating && dir == Prev && s.section > 1 ==> r == GoTo(s, s.section - 1, present)
    ensures Consistent(s) ==> Consistent(r) && -1 <= r.section - s.section <= 1
  {
    if s.animating then s
    else
      var target :=
        if dir == Next && s.section < TotalSections then s.section + 1
        else if dir == Prev && s.section > 1 then s.section - 1
        else s.section;
      if target != s.section then GoTo(s, target, present) else s
  }

  /**
   * `handleKeyboard`: the new state and whether the key's default action was
   * prevented.  While animating nothing happens and no default is prevented.
   */
  function HandleKey(s: Nav, key: string, present: set<int>): (r: (Nav, bool))
    ensures s.animating ==> r == (s, false)
    ensures !s.animating && (key == "ArrowRight" || key == " ") ==> r == (Navigate(s, Next, present), true)
    ensures !s.animating && key == "ArrowLeft" ==> r == (Navigate(s, Prev, present), true)
    ensures !s.animating && key == "Home" ==> r == (GoTo(s, 1, present), true)
    ensures !s.animating && key == "End" ==> r == (GoTo(s, TotalSections, present), true)
    ensures key !in {"ArrowRight", " ", "ArrowLeft", "Home", "End"} ==> r == (s, false)
  {
    if s.animating then (s, false)
    else if key == "ArrowRight" || key == " " then (Navigate(s, Next, present), true)
    else if key == "ArrowLeft" then (Navigate(s, Prev, present), true)
    else if key == "Home" then (GoTo(s, 1, present), true)
    else if key == "End" then (GoTo(s, TotalSections, present), true)
    else (s, false)
  }

  /**
   * The incoming fade's completion callback: it clears the latch and starts the
   * entrance animation of its section, which is returned.  With no callback
   * registered nothing fires.
   */
  function Complete(s: Nav): (r: (Nav, Option<int>))
    ensures s.entering.None? ==> r == (s, None)
    ensures s.entering.Some? ==>
      r.1 == s.entering && !r.0.animating && r.0.entering.None? &&
      r.0 == s.(animating := false, entering := None)
    ensures Consistent(s) ==> Consistent(r.0)
  {
    match s.entering
    case None => (s, None)
    case Some(n) => (s.(animating := false, entering := None), Some(n))
  }

  /** The `beforeunload` handler asks for confirmation whenever the deck has left section 1. */
  function VetoesUnload(s: Nav): (veto: bool)
    ensures Consistent(s) ==> (veto <==> s.section != 1)
  {
    s.section > 1
  }

  // ----- Event sequences -----

  /** What the page can deliver: a click on a navigation button, a key press,
      a direct jump (`window.LIFEX.goToSection`), or the incoming fade finishing. */
  datatype Event = Button(dir: Direction) | Key(key: string) | Jump(target: int) | FadeInDone

  function Step(s: Nav, e: Event, present: set<int>): (r: Nav)
    ensures Consistent(s) ==> Consistent(r)
    ensures s.animating && !e.FadeInDone? ==> r == s
    ensures s.animating && !r.animating ==> e.FadeInDone? && s.entering.Some?
  {
    match e
    case Button(dir) => Navigate(s, dir, present)
    case Key(key) => HandleKey(s, key, present).0
    case Jump(n) => GoTo(s, n, present)
    case FadeInDone => Complete(s).0
  }

  function Run(s: Nav, events: seq<Event>, present: set<int>): Nav
    decreases |events|
  {
    if events == [] then s else Run(Step(s, events[0], present), events[1..], present)
  }

  /** The section stays within `[1, TotalSections]` and the controls stay in step, whatever happens. */
  lemma {:induction false} RunConsistent(s: Nav, events: seq<Event>, present: set<int>)
    requires Consistent(s)
    ensures Consistent(Run(s, events, present))
    decreases |events|
  {
    if events != [] {
      RunConsistent(Step(s, events[0], present), events[1..], present);
    }
  }

  /** A latch with no registered callback is never cleared: every later event is ignored. */
  lemma {:induction false} StuckForever(s: Nav, events: seq<Event>, present: set<int>)
    requires Consistent(s) && s.animating && s.entering.None?
    ensures Run(s, events, present) == s
    decreases |events|
  {
    if events != [] {
      StuckForever(Step(s, events[0], present), events[1..], present);
    }
  }

  /** Navigating to a section without an element moves there and then freezes the deck. */
  lemma MissingSectionFreezes(s: Nav, n: int, present: set<int>, events: seq<Event>)
    requires Consistent(s) && !s.animating && 1 <= n <= TotalSections && n !in present
    ensures GoTo(s, n, present).section == n
    ensures Run(GoTo(s, n, present), events, present) == GoTo(s, n, present)
  {
    StuckForever(GoTo(s, n, present), events, present);
  }

  /** Every section has an element: the latch is set only while a callback is pending. */
  predicate Releasable(s: Nav) {
    s.animating ==> s.entering.Some?
  }

  lemma {:induction false} AllPresentReleasable(s: Nav, events: seq<Event>, present: set<int>)
    requires forall k :: 1 <= k <= TotalSections ==> k in present
    requires Consistent(s) && Releasable(s)
    ensures Releasable(Run(s, events, present))
    decreases |events|
  {
    if events != [] {
      var t := Step(s, events[0], present);
      assert Releasable(t);
      AllPresentReleasable(t, events[1..], present);
    }
  }

  // ----- The stateful component -----

  /** The navigator as the page holds it: fields of the global `state` record and of the controls. */
  class Navigator {
    var currentSection: nat
    var isAnimating: bool
    var entering: Option<int>
    var prevDisabled: bool
    var nextDisabled: bool
    var progressCurrent: string
    var progressTotal: string

    function State(): Nav
      reads this
    {
      Nav(currentSection, isAnimating, entering, prevDisabled, nextDisabled, progressCurrent, progressTotal)
    }

    ghost predicate Valid()
      reads this
    {
      Consistent(State())
    }

    /** `init()`, as far as it concerns the navigator. */
    constructor ()
      ensures Valid() && State() == Initial()
    {
      currentSection, isAnimating, entering := 1, false, None;
      prevDisabled, nextDisabled, progressCurrent, progressTotal := false, false, "", "";
      new;
      UpdateProgress();
      UpdateButtonStates();
    }

    method UpdateProgress()
      modifies this
      ensures State() == WithProgress(old(State()))
    {
      progressCurrent := NatToString(currentSection);
      progressTotal := NatToString(TotalSections);
    }

    method UpdateButtonStates()
      modifies this
      ensures State() == WithButtonStates(old(State()))
    {
      prevDisabled := currentSection == 1;
      nextDisabled := currentSection == TotalSections;
    }

    /** `goToSection`; `present` says which sections have an element. */
    method GoToSection(n: int, present: set<int>)
      requires Valid()
      modifies this
      ensures Valid()
      ensures State() == GoTo(old(State()), n, present)
    {
      if n < 1 || n > TotalSections || isAnimating {
        return;
      }
      isAnimating := true;
      if n in present {
        entering := Some(n);
      }
      currentSection := n;
      UpdateProgress();
      UpdateButtonStates();
    }

    method NavigateSection(dir: Direction, present: set<int>)
      requires Valid()
      modifies this
      ensures Valid()
      ensures State() == Navigate(old(State()), dir, present)
    {
      if isAnimating {
        return;
      }
      var nextSection := currentSection;
      if dir == Next && currentSection < TotalSections {
        nextSection := currentSection + 1;
      } else if dir == Prev && currentSection > 1 {
        nextSection := currentSection - 1;
      }
      if nextSection != currentSection {
        GoToSection(nextSection, present);
      }
    }

    method HandleKeyboard(key: string, present: set<int>) returns (prevented: bool)
      requires Valid()
      modifies this
      ensures Valid()
      ensures (State(), prevented) == HandleKey(old(State()), key, present)
    {
      prevented := false;
      if isAnimating {
        return;
      }
      if key == "ArrowRight" || key == " " {
        prevented := true;
        NavigateSection(Next, present);
      } else if key == "ArrowLeft" {
        prevented := true;
        NavigateSection(Prev, present);
      } else if key == "Home" {
        prevented := true;
        GoToSection(1, present);
      } else if key == "End" {
        prevented := true;
        GoToSection(TotalSections, present);
      }
    }

    /** The incoming fade has finished: run its callback if one is registered.
        Returns the section whose entrance animation starts. */
    method CompleteTransition() returns (entered: Option<int>)
      requires Valid()
      modifies this
      ensures Valid()
      ensures (State(), entered) == Complete(old(State()))
    {
      entered := entering;
      if entering.Some? {
        isAnimating := false;
        entering := None;
      }
    }

    /** The `beforeunload` handler: whether it asks the browser to confirm leaving. */
    method BeforeUnload() returns (veto: bool)
      requires Valid()
      ensures veto <==> currentSection != 1
    {
      veto := currentSection > 1;
    }
  }
}
