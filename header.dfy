/**
 * The navigation shell: a header that hides itself while the page is scrolled
 * down past a threshold, a mobile menu that opens and closes, and the pill that
 * marks the link of the current route.
 */
module Header {
  import opened Js
  import opened Registry

  /** Scroll offset (in pixels) that a downward scroll must pass before the header hides. */
  const HideThreshold: int := 150

  /** The header's two state cells. */
  datatype Shell = Shell(hidden: bool, isOpen: bool)

  /** Both cells start false: the header is shown and the menu is closed. */
  const Initial: Shell := Shell(false, false)

  /** What drives the state cells: a scroll sample, a route change, a press of the menu button. */
  datatype Event =
    | ScrollChange(latest: int, previous: Option<int>)
    | LocationChange
    | ToggleMenu

  /** The previous sample, read as 0 before there is one. */
  function PreviousOrZero(previous: Option<int>): int
  {
    match previous
    case Some(p) => p
    case None => 0
  }

  /** A sample hides the header when it moved down and is strictly past the threshold. */
  predicate Hides(latest: int, previous: Option<int>)
  {
    latest > PreviousOrZero(previous) && latest > HideThreshold
  }

  /** The effect of one event on the state cells. */
  function Step(s: Shell, e: Event): (t: Shell)
    ensures e.ScrollChange? ==> (t.hidden <==> Hides(e.latest, e.previous))
    ensures e.ScrollChange? ==> (t.hidden ==> !t.isOpen) && (!t.hidden ==> t.isOpen == s.isOpen)
    ensures !e.ScrollChange? ==> t.hidden == s.hidden
    ensures e.LocationChange? ==> !t.isOpen
    ensures e.ToggleMenu? ==> t.isOpen != s.isOpen
  {
    match e
    case ScrollChange(latest, previous) =>
      if Hides(latest, previous) then Shell(true, false) else s.(hidden := false)
    case LocationChange => s.(isOpen := false)
    case ToggleMenu => s.(isOpen := !s.isOpen)
  }

  function Run(s: Shell, events: seq<Event>): Shell
    decreases |events|
  {
    if events == [] then s else Run(Step(s, events[0]), events[1..])
  }

  /**
   * The scroll samples a sequence of offsets produces: each one carries the
   * offset before it. The motion value's "change" subscription fires only when
   * the value actually changes, so the offsets a visitor can produce are the
   * `Delivered` ones.
   */
  function Samples(previous: Option<int>, offsets: seq<int>): (events: seq<Event>)
    ensures |events| == |offsets|
    ensures forall i :: 0 <= i < |events| ==> events[i].ScrollChange? && events[i].latest == offsets[i]
    ensures forall i :: 0 < i < |events| ==> events[i].previous == Some(offsets[i - 1])
    ensures |events| > 0 ==> events[0].previous == previous
    decreases |offsets|
  {
    if offsets == [] then [] else [ScrollChange(offsets[0], previous)] + Samples(Some(offsets[0]), offsets[1..])
  }

  /** Offsets as the "change" subscription delivers them: each differs from the value before it. */
  predicate Delivered(previous: Option<int>, offsets: seq<int>)
  {
    (|offsets| > 0 ==> offsets[0] != PreviousOrZero(previous)) &&
    forall i :: 0 < i < |offsets| ==> offsets[i] != offsets[i - 1]
  }

  /** The threshold is strict: a sample at exactly 150 leaves the header shown, one at 151 hides it. */
  lemma HideThresholdIsStrict(s: Shell, previous: Option<int>)
    ensures !Step(s, ScrollChange(HideThreshold, previous)).hidden
    ensures Step(s, ScrollChange(HideThreshold + 1, previous)).hidden <==> PreviousOrZero(previous) <= HideThreshold
    ensures Step(s, ScrollChange(HideThreshold + 1, None)).hidden
  {
  }

  /** Two presses of the menu button give back the state before them. */
  lemma ToggleTwice(s: Shell)
    ensures Run(s, [ToggleMenu, ToggleMenu]) == s
  {
  }

  /** Only scroll samples move `hidden`: route changes and the menu button leave it alone. */
  lemma {:induction false} HiddenChangesOnlyOnScroll(s: Shell, events: seq<Event>)
    requires forall i :: 0 <= i < |events| ==> !events[i].ScrollChange?
    ensures Run(s, events).hidden == s.hidden
    decreases |events|
  {
    if events != [] {
      HiddenChangesOnlyOnScroll(Step(s, events[0]), events[1..]);
    }
  }

  /**
   * After any run of scroll samples, `hidden` is decided by the last sample
   * and the one before it alone (or the carried-in previous one).
   */
  lemma {:induction false} LastSampleDecidesHidden(s: Shell, previous: Option<int>, offsets: seq<int>)
    requires |offsets| > 0
    requires Delivered(previous, offsets)
    ensures var n := |offsets|;
      var before := if n == 1 then previous else Some(offsets[n - 2]);
      Run(s, Samples(previous, offsets)).hidden <==> Hides(offsets[n - 1], before)
    decreases |offsets|
  {
    var events := Samples(previous, offsets);
    assert events[1..] == Samples(Some(offsets[0]), offsets[1..]);
    if |offsets| > 1 {
      LastSampleDecidesHidden(Step(s, events[0]), Some(offsets[0]), offsets[1..]);
    }
  }

  /** A run of scroll samples leaves the menu open exactly when it was open and no sample hid the header. */
  lemma {:induction false} SamplesCloseMenuIffOneHides(s: Shell, previous: Option<int>, offsets: seq<int>)
    ensures var events := Samples(previous, offsets);
      var noneHides := forall i :: 0 <= i < |events| ==> !Hides(events[i].latest, events[i].previous);
      Run(s, events).isOpen <==> s.isOpen && noneHides
    decreases |offsets|
  {
    var events := Samples(previous, offsets);
    if offsets != [] {
      assert events[1..] == Samples(Some(offsets[0]), offsets[1..]);
      SamplesCloseMenuIffOneHides(Step(s, events[0]), Some(offsets[0]), offsets[1..]);
      var tail := events[1..];
      assert forall i :: 0 < i < |events| ==> events[i] == tail[i - 1];
    }
  }

  /**
   * For any delivered offset sequence: a final step down past the threshold
   * hides the header, and a following step back up shows it again.
   */
  lemma ScrollDirectionDecides(s: Shell, offsets: seq<int>, down: int, up: int)
    requires |offsets| > 0 && Delivered(None, offsets)
    requires down > offsets[|offsets| - 1] && down > HideThreshold
    requires up < down
    ensures Run(s, Samples(None, offsets + [down])).hidden
    ensures !Run(s, Samples(None, offsets + [down, up])).hidden
  {
    LastSampleDecidesHidden(s, None, offsets + [down]);
    LastSampleDecidesHidden(s, None, offsets + [down, up]);
  }

  /** Which pill a desktop link shows. */
  datatype Pill = ActivePill | HoverPill

  /** The active pill is rendered exactly when the pathname equals the link's path; otherwise the hover pill. */
  function PillFor(pathname: string, link: NavLink): (p: Pill)
    ensures p == ActivePill <==> pathname == link.path
    ensures p == HoverPill <==> pathname != link.path
  {
    if pathname == link.path then ActivePill else HoverPill
  }

  /** The pills of the desktop navigation, link by link. */
  function DesktopPills(pathname: string, links: seq<NavLink>): (pills: seq<Pill>)
    ensures |pills| == |links|
    ensures forall i :: 0 <= i < |links| ==> pills[i] == PillFor(pathname, links[i])
  {
    if links == [] then [] else [PillFor(pathname, links[0])] + DesktopPills(pathname, links[1..])
  }

  /** With distinct link paths at most one link is active, whatever the pathname. */
  lemma AtMostOneActive(pathname: string, links: seq<NavLink>)
    requires DistinctPaths(links)
    ensures var pills := DesktopPills(pathname, links);
      forall i, j :: 0 <= i < |pills| && 0 <= j < |pills| && pills[i] == ActivePill && pills[j] == ActivePill ==> i == j
  {
  }

  /**
   * A pathname holds no `#`, so the About, Blog and Contact links (whose paths
   * hold one) are never active.
   */
  lemma HashLinksNeverActive(pathname: string)
    requires '#' !in pathname
    ensures var pills := DesktopPills(pathname, NavLinks);
      pills[1] == HoverPill && pills[4] == HoverPill && pills[5] == HoverPill
  {
    var pills := DesktopPills(pathname, NavLinks);
    assert NavLinks[1].path[1] == '#' && NavLinks[4].path[1] == '#' && NavLinks[5].path[1] == '#';
    assert pills[1] == PillFor(pathname, NavLinks[1]);
    assert pills[4] == PillFor(pathname, NavLinks[4]);
    assert pills[5] == PillFor(pathname, NavLinks[5]);
  }

  /** On the home route only the Home link is active. */
  lemma OnlyHomeActiveAtRoot()
    ensures DesktopPills("/", NavLinks) == [ActivePill, HoverPill, HoverPill, HoverPill, HoverPill, HoverPill]
  {
    var pills := DesktopPills("/", NavLinks);
    assert |NavLinks[1].path| > 1 && |NavLinks[2].path| > 1 && |NavLinks[3].path| > 1;
    assert |NavLinks[4].path| > 1 && |NavLinks[5].path| > 1;
    assert pills[0] == ActivePill;
    assert pills[1] == HoverPill && pills[2] == HoverPill && pills[3] == HoverPill;
    assert pills[4] == HoverPill && pills[5] == HoverPill;
  }

  /** The links the mobile menu shows: all of them while it is open, none otherwise. */
  function MobileMenu(s: Shell): (links: seq<NavLink>)
    ensures s.isOpen ==> links == NavLinks
    ensures !s.isOpen ==> links == []
  {
    if s.isOpen then NavLinks else []
  }

  /** The header component's state cells, updated by its three handlers. */
  class HeaderState {
    var hidden: bool
    var isOpen: bool

    function Snapshot(): Shell
      reads this
    {
      Shell(hidden, isOpen)
    }

    constructor ()
      ensures Snapshot() == Initial
    {
      hidden, isOpen := false, false;
    }

    /** The `scrollY` change handler. */
    method OnScrollChange(latest: int, previous: Option<int>)
      modifies this
      ensures Snapshot() == Step(old(Snapshot()), ScrollChange(latest, previous))
      ensures hidden == Hides(latest, previous)
      ensures isOpen == (old(isOpen) && !hidden)
    {
      if latest > PreviousOrZero(previous) && latest > HideThreshold {
        hidden := true;
        isOpen := false;
      } else {
        hidden := false;
      }
    }

    /** The effect that runs whenever the location changes. */
    method OnLocationChange()
      modifies this
      ensures Snapshot() == Step(old(Snapshot()), LocationChange)
      ensures !isOpen && hidden == old(hidden)
    {
      isOpen := false;
    }

    /** The mobile menu button. */
    method OnToggle()
      modifies this
      ensures Snapshot() == Step(old(Snapshot()), ToggleMenu)
      ensures isOpen == !old(isOpen) && hidden == old(hidden)
    {
      isOpen := !isOpen;
    }
  }
}
