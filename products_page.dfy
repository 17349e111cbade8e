/**
 * The products page: the hero's "Get Quote" navigation, and the scrolling
 * features section, where one scroll trigger per feature card slides the
 * sticky images in and out (each image's vertical offset is -100, 0 or 100
 * percent) and marks one feature as active.
 */
module ProductsPage {
  import opened Js
  import Carousel
  import Router

  /** Below this window width no scroll triggers are set up. */
  const MobileBreakpoint: int := 768

  predicate IsMobile(innerWidth: int)
  {
    innerWidth < MobileBreakpoint
  }

  datatype Feature = Feature(title: string, image: string)

  /** The five feature cards (their descriptions and icons are not part of the model). */
  const Features: seq<Feature> := [
    Feature(" Medford’s BLUVIA Neo", "/imgs/pr1.jpg"),
    Feature("High-Capacity Instrument Racks", "/imgs/pr2.jpg"),
    Feature("HEPA-Filtered Air Drying", "/imgs/pr3.jpg"),
    Feature("Advanced Disinfecting Solutions", "/imgs/pr3.jpg"),
    Feature("Integrated Digital Documentation", "/imgs/pr1.jpg")
  ]

  // ---------------------------------------------------------------- Get Quote

  /** A call of `navigate(to, { state })`. */
  datatype NavigateRequest = NavigateRequest(to: string, state: Router.NavState)

  /** What "Get Quote" asks for: the home page, carrying `scrollToContact: true`. */
  const GetQuote: NavigateRequest := NavigateRequest("/", Router.NavState(true))

  /** The location the router reports after a navigation to a path without a hash. */
  function Arrival(req: NavigateRequest): (loc: Router.Location)
    requires '#' !in req.to
    ensures loc.pathname == req.to && loc.hash == "" && loc.state == Some(req.state)
  {
    Router.Location(req.to, "", Some(req.state))
  }

  /**
   * Leaving this page through "Get Quote" only scrolls the home page to the top:
   * the carried `scrollToContact` is never read, so no contact scroll is scheduled.
   */
  lemma GetQuoteScrollsToTopOnly(mounted: set<string>)
    ensures Router.OnLocationChange(Some(Router.Location("/products", "", None)), Arrival(GetQuote), mounted)
      == [Router.ScrollToTop]
  {
  }

  // ---------------------------------------------------------------- Image layout

  /** Every image offset is one of the three resting positions: above, in view, below. */
  predicate InRange(ys: seq<int>)
  {
    forall i :: 0 <= i < |ys| ==> ys[i] == -100 || ys[i] == 0 || ys[i] == 100
  }

  /** The first image is in view, all the others wait below. */
  function InitialLayout(n: nat): (ys: seq<int>)
    ensures |ys| == n && InRange(ys)
    ensures n > 0 ==> ys[0] == 0
    ensures forall i :: 0 < i < n ==> ys[i] == 100
  {
    seq(n, i => if i == 0 then 0 else 100)
  }

  /** `onEnter` of card `i`: image `i` comes into view and image `i - 1` leaves upward; nothing else moves. */
  function Entered(ys: seq<int>, i: nat): (zs: seq<int>)
    requires i < |ys|
    ensures |zs| == |ys|
    ensures zs[i] == 0
    ensures i > 0 ==> zs[i - 1] == -100
    ensures forall j :: 0 <= j < |ys| && j != i && j + 1 != i ==> zs[j] == ys[j]
    ensures InRange(ys) ==> InRange(zs)
  {
    var moved := if i > 0 then ys[i - 1 := -100] else ys;
    moved[i := 0]
  }

  /** `onEnterBack` of card `i`: image `i` comes back into view and image `i + 1` goes back down; nothing else moves. */
  function EnteredBack(ys: seq<int>, i: nat): (zs: seq<int>)
    requires i < |ys|
    ensures |zs| == |ys|
    ensures zs[i] == 0
    ensures i + 1 < |ys| ==> zs[i + 1] == 100
    ensures forall j :: 0 <= j < |ys| && j != i && j != i + 1 ==> zs[j] == ys[j]
    ensures InRange(ys) ==> InRange(zs)
  {
    var moved := if i + 1 < |ys| then ys[i + 1 := 100] else ys;
    moved[i := 0]
  }

  /** The layout while card `k` is active after scrolling down to it: earlier images above, later ones below. */
  function Staircase(n: nat, k: nat): (ys: seq<int>)
    ensures |ys| == n && InRange(ys)
  {
    seq(n, j => if j < k then -100 else if j == k then 0 else 100)
  }

  /** Entering cards `0, 1, ..., k` in that order, starting from `ys`. */
  function EnterInOrder(ys: seq<int>, k: nat): (zs: seq<int>)
    requires k < |ys|
    ensures |zs| == |ys| && zs[k] == 0
    ensures InRange(ys) ==> InRange(zs)
  {
    var before := if k == 0 then ys else EnterInOrder(ys, k - 1);
    Entered(before, k)
  }

  /** Entering card `k + 1` moves the staircase down one step. */
  lemma EnterStepsDown(n: nat, k: nat)
    requires k + 1 < n
    ensures Entered(Staircase(n, k), k + 1) == Staircase(n, k + 1)
  {
  }

  /** Entering card `k` back from below moves the staircase up one step: the inverse of EnterStepsDown. */
  lemma EnterBackStepsUp(n: nat, k: nat)
    requires k + 1 < n
    ensures EnteredBack(Staircase(n, k + 1), k) == Staircase(n, k)
  {
  }

  /**
   * From the initial layout, entering cards `0..k` in order leaves images
   * `0..k-1` above, image `k` in view, and the rest below.
   */
  lemma {:induction false} EnterInOrderIsStaircase(n: nat, k: nat)
    requires k < n
    ensures EnterInOrder(InitialLayout(n), k) == Staircase(n, k)
  {
    if k == 0 {
      assert Entered(InitialLayout(n), 0) == Staircase(n, 0);
    } else {
      EnterInOrderIsStaircase(n, k - 1);
      EnterStepsDown(n, k - 1);
    }
  }

  // ---------------------------------------------------------------- Rendering

  /** A sticky image's wrapper: its stacking class and whether it renders inside the Lens. */
  datatype ImageLayer = ImageLayer(zClass: string, withLens: bool)

  function ImageLayers(n: nat, activeIndex: nat): (layers: seq<ImageLayer>)
    ensures |layers| == n
    ensures forall i :: 0 <= i < n ==> (layers[i].withLens <==> i == activeIndex)
    ensures forall i :: 0 <= i < n ==> (layers[i].zClass == "z-10" <==> i == activeIndex)
  {
    seq(n, i => if i == activeIndex then ImageLayer("z-10", true) else ImageLayer("z-0", false))
  }

  /** With the active index in range, exactly one image is raised and magnified by the Lens. */
  lemma ExactlyOneLens(n: nat, activeIndex: nat)
    requires activeIndex < n
    ensures var layers := ImageLayers(n, activeIndex);
      Carousel.CountTrue(seq(n, i requires 0 <= i < n => layers[i].withLens)) == 1
  {
    var layers := ImageLayers(n, activeIndex);
    assert seq(n, i requires 0 <= i < n => layers[i].withLens) == Carousel.Indicators(activeIndex, n);
    Carousel.ExactlyOneIndicator(activeIndex, n);
  }

  /** A feature card's emphasis, in percent: full size and opacity for the active card only. */
  datatype CardLook = CardLook(scalePercent: int, opacityPercent: int)

  function CardLooks(n: nat, activeIndex: nat): (looks: seq<CardLook>)
    ensures |looks| == n
    ensures forall i :: 0 <= i < n ==> (looks[i] == CardLook(100, 100) <==> i == activeIndex)
    ensures forall i :: 0 <= i < n && i != activeIndex ==> looks[i] == CardLook(95, 60)
  {
    seq(n, i => if i == activeIndex then CardLook(100, 100) else CardLook(95, 60))
  }

  // ---------------------------------------------------------------- The section's state

  /** The section's `activeIndex` cell and the vertical offsets of its sticky images. */
  class ScrollingFeatures {
    var activeIndex: nat
    const yPercent: array<int>

    /** Mount: nothing active but the first card, every image untransformed. */
    constructor (n: nat)
      ensures fresh(yPercent) && yPercent.Length == n && activeIndex == 0
      ensures forall i :: 0 <= i < n ==> yPercent[i] == 0
    {
      activeIndex := 0;
      yPercent := new int[n](_ => 0);
    }

    /**
     * The layout effect. On mobile it does nothing at all. Otherwise it lays the
     * images out and registers one trigger per card, identified by its index.
     */
    method Setup(innerWidth: int) returns (triggers: seq<nat>)
      modifies yPercent
      ensures IsMobile(innerWidth) ==> triggers == [] && yPercent[..] == old(yPercent[..])
      ensures !IsMobile(innerWidth) ==> yPercent[..] == InitialLayout(yPercent.Length)
      ensures !IsMobile(innerWidth) ==> |triggers| == yPercent.Length && forall i :: 0 <= i < |triggers| ==> triggers[i] == i
    {
      triggers := [];
      if innerWidth < MobileBreakpoint {
        return;
      }
      var n := yPercent.Length;
      for i := 0 to n
        invariant forall j :: 0 <= j < i ==> yPercent[j] == 100
      {
        yPercent[i] := 100;
      }
      if n > 0 {
        yPercent[0] := 0;
      }
      assert yPercent[..] == InitialLayout(n);
      for i := 0 to n
        invariant |triggers| == i
        invariant forall j :: 0 <= j < i ==> triggers[j] == j
      {
        triggers := triggers + [i];
      }
    }

    method OnEnter(index: nat)
      requires index < yPercent.Length
      modifies this, yPercent
      ensures activeIndex == index
      ensures yPercent[..] == Entered(old(yPercent[..]), index)
    {
      activeIndex := index;
      if index > 0 {
        yPercent[index - 1] := -100;
      }
      yPercent[index] := 0;
    }

    method OnEnterBack(index: nat)
      requires index < yPercent.Length
      modifies this, yPercent
      ensures activeIndex == index
      ensures yPercent[..] == EnteredBack(old(yPercent[..]), index)
    {
      activeIndex := index;
      if index < yPercent.Length - 1 {
        yPercent[index + 1] := 100;
      }
      yPercent[index] := 0;
    }
  }
}
