/**
 * The rotating-text component: `cn`, which joins the truthy class names with
 * single spaces, and the `currentIndex` cell that an interval timer advances
 * through the list of texts.
 */
module RotatingText {
  import opened Js
  import Carousel

  /** `cn(...classes)`: the non-empty class names, joined with single spaces. */
  function Cn(classes: seq<string>): (r: string)
    ensures r == "" <==> forall i :: 0 <= i < |classes| ==> classes[i] == ""
  {
    Join(Truthy(classes), ' ')
  }

  /** An empty class name is dropped, so it adds no stray space. */
  lemma CnDropsEmpty(a: string)
    requires a != ""
    ensures Cn([a, ""]) == a && Cn(["", a]) == a
  {
    assert Truthy([a, ""]) == [a] by { assert [a, ""][1..] == [""]; }
    assert Truthy(["", a]) == [a] by { assert ["", a][1..] == [a]; }
  }

  lemma CnTwo(a: string, b: string)
    requires a != "" && b != ""
    ensures Cn([a, b]) == a + " " + b
  {
    assert Truthy([a, b]) == [a, b];
    assert [a, b][1..] == [b];
    assert Join([a, b], ' ') == a + [' '] + Join([b], ' ');
  }

  /**
   * `cn` over any number of arguments: concatenating two argument lists that
   * each contribute a class merges their results with one space between them.
   */
  lemma CnAppend(a: seq<string>, b: seq<string>)
    requires Cn(a) != "" && Cn(b) != ""
    ensures Cn(a + b) == Cn(a) + " " + Cn(b)
  {
    TruthyAppend(a, b);
    JoinAppend(Truthy(a), Truthy(b), ' ');
  }

  /** With the default (empty) extra class names, the elements get only their base class. */
  lemma DefaultClassNames()
    ensures Cn(["text-rotate", ""]) == "text-rotate"
    ensures Cn(["text-rotate-element", ""]) == "text-rotate-element"
  {
    CnDropsEmpty("text-rotate");
    CnDropsEmpty("text-rotate-element");
  }

  /** Splitting the joined class string at spaces gives back exactly the truthy class names. */
  lemma CnRoundTrip(classes: seq<string>)
    requires forall i :: 0 <= i < |classes| ==> ' ' !in classes[i]
    requires exists i :: 0 <= i < |classes| && classes[i] != ""
    ensures Split(Cn(classes), ' ') == Truthy(classes)
  {
    SplitJoin(Truthy(classes), ' ');
  }

  /**
   * The index cell. It holds a number; `(prev + 1) % 0` on an empty list of
   * texts yields NaN, which then stays NaN.
   */
  datatype Index = At(i: nat) | NaN

  /** One interval tick over `n` texts. */
  function Tick(cur: Index, n: nat): (next: Index)
    ensures n == 0 || cur == NaN ==> next == NaN
    ensures n > 0 && cur.At? ==> next.At? && next.i < n
    ensures n > 0 && cur.At? && cur.i + 1 < n ==> next == At(cur.i + 1)
  {
    match cur
    case NaN => NaN
    case At(i) => if n == 0 then NaN else At(Carousel.Next(i, n))
  }

  function Ticks(cur: Index, n: nat, k: nat): Index
  {
    if k == 0 then cur else Tick(Ticks(cur, n, k - 1), n)
  }

  /** `texts[currentIndex]`: undefined (nothing shown) unless the index is a number in range. */
  function Shown(texts: seq<string>, cur: Index): (r: Option<string>)
    ensures r.Some? <==> cur.At? && cur.i < |texts|
    ensures r.Some? ==> r.value == texts[cur.i]
  {
    if cur.At? && cur.i < |texts| then Some(texts[cur.i]) else None
  }

  /** Over a non-empty list the index follows the carousel rule. */
  lemma {:induction false} TicksFollowCarousel(i: nat, n: nat, k: nat)
    requires n > 0
    ensures Ticks(At(i), n, k) == At(Carousel.Advance(i, n, k))
  {
    if k > 0 {
      TicksFollowCarousel(i, n, k - 1);
    }
  }

  /** After `n` ticks over `n` texts the index is back at its starting value, and not before. */
  lemma TicksReturnAfterN(i: nat, n: nat)
    requires i < n
    ensures Ticks(At(i), n, n) == At(i)
    ensures forall k :: 0 < k < n ==> Ticks(At(i), n, k) != At(i)
  {
    TicksFollowCarousel(i, n, n);
    Carousel.FullCycle(i, n);
    forall k | 0 < k < n
      ensures Ticks(At(i), n, k) != At(i)
    {
      TicksFollowCarousel(i, n, k);
    }
  }

  /** With no texts, any tick leaves the index NaN and nothing is ever shown. */
  lemma {:induction false} EmptyTextsShowNothing(cur: Index, k: nat)
    requires k > 0
    ensures Ticks(cur, 0, k) == NaN
    ensures Shown([], Ticks(cur, 0, k)) == None
  {
    if k > 1 {
      EmptyTextsShowNothing(cur, k - 1);
    }
  }

  /** The component's state: the texts it was given and its index cell. */
  class RotatingTextState {
    const texts: seq<string>
    var currentIndex: Index

    /** Over a non-empty list the index is always a number in range. */
    ghost predicate Valid()
      reads this
    {
      |texts| > 0 ==> currentIndex.At? && currentIndex.i < |texts|
    }

    function Displayed(): (r: Option<string>)
      reads this
      ensures Valid() && |texts| > 0 ==> r.Some?
    {
      Shown(texts, currentIndex)
    }

    constructor (texts: seq<string>)
      ensures this.texts == texts && currentIndex == At(0)
      ensures Valid()
    {
      this.texts := texts;
      currentIndex := At(0);
    }

    /** The interval callback: the only thing it changes is `currentIndex`. */
    method OnInterval()
      requires Valid()
      modifies this
      ensures currentIndex == Tick(old(currentIndex), |texts|)
      ensures Valid()
    {
      match currentIndex
      case NaN =>
      case At(i) =>
        if |texts| == 0 {
          currentIndex := NaN;
        } else {
          currentIndex := At((i + 1) % |texts|);
        }
    }
  }
}
