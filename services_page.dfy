/**
 * The services page's scroll-stack section: which service the left column
 * shows, the pinned timeline of card-to-card transitions whose callbacks move
 * the active service, and the stacking values of the cards.
 */
module ServicesPage {
  import opened Js
  import opened Registry

  /** Below this window width the page is laid out for mobile. */
  const MobileBreakpoint: int := 768

  predicate IsMobile(innerWidth: int)
  {
    innerWidth < MobileBreakpoint
  }

  /** The position of the first service with the given id (`Array.prototype.find`). */
  function FirstWithId(services: seq<Service>, id: int): (k: Option<nat>)
    ensures k.None? <==> forall i :: 0 <= i < |services| ==> services[i].id != id
    ensures k.Some? ==> k.value < |services| && services[k.value].id == id
    ensures k.Some? ==> forall j :: 0 <= j < k.value ==> services[j].id != id
  {
    if services == [] then None
    else if services[0].id == id then Some(0)
    else
      var rest := FirstWithId(services[1..], id);
      if rest.None? then None else Some(rest.value + 1)
  }

  /** The service whose details are shown: the one with the active id, else the first service. */
  function ActiveService(services: seq<Service>, activeId: int): (s: Service)
    requires |services| > 0
    ensures s in services
    ensures (exists i :: 0 <= i < |services| && services[i].id == activeId) ==> s.id == activeId
    ensures (forall i :: 0 <= i < |services| ==> services[i].id != activeId) ==> s == services[0]
  {
    match FirstWithId(services, activeId)
    case Some(k) => services[k]
    case None => services[0]
  }

  /** With distinct ids, looking up a service's own id finds that very service. */
  lemma ActiveServiceOfOwnId(services: seq<Service>, k: nat)
    requires DistinctServiceIds(services)
    requires k < |services|
    ensures ActiveService(services, services[k].id) == services[k]
  {
    var found := FirstWithId(services, services[k].id);
    assert found.Some?;
  }

  /** The registry's first service is the one shown before any scrolling. */
  lemma InitialServiceShown()
    ensures ActiveService(ServicesData, ServicesData[0].id) == ServicesData[0]
  {
    ServicesWellFormed();
    ActiveServiceOfOwnId(ServicesData, 0);
  }

  // ---------------------------------------------------------------- Timeline

  /** The transition labelled `transition-<index>`: card `index` recedes while card `index + 1` comes forward. */
  datatype Transition = Transition(index: nat, current: nat, next: nat)

  /** The pinned timeline: how far past the section's top the pin ends (in percent) and its transitions. */
  datatype Timeline = Timeline(pinEndPercent: int, transitions: seq<Transition>)

  /** The layout effect: on mobile no timeline is built; otherwise one transition per service but the last. */
  method BuildTimeline(services: seq<Service>, innerWidth: int) returns (timeline: Option<Timeline>)
    ensures timeline.None? <==> IsMobile(innerWidth)
    ensures timeline.Some? ==> timeline.value.pinEndPercent == (|services| - 1) * 100
    ensures timeline.Some? ==> |timeline.value.transitions| == if |services| == 0 then 0 else |services| - 1
    ensures timeline.Some? ==> forall i :: 0 <= i < |timeline.value.transitions| ==>
      timeline.value.transitions[i] == Transition(i, i, i + 1)
  {
    if innerWidth < MobileBreakpoint {
      return None;
    }
    var firsts := if |services| == 0 then [] else services[..|services| - 1];
    var transitions: seq<Transition> := [];
    var index := 0;
    while index < |firsts|
      invariant 0 <= index <= |firsts|
      invariant |transitions| == index
      invariant forall i :: 0 <= i < index ==> transitions[i] == Transition(i, i, i + 1)
    {
      transitions := transitions + [Transition(index, index, index + 1)];
      index := index + 1;
    }
    timeline := Some(Timeline((|services| - 1) * 100, transitions));
  }

  /** A timeline callback as the scrub fires it. */
  datatype Callback = OnStart(index: nat) | OnReverseComplete(index: nat)

  /** The service a callback makes active: the next one on start, its own on reverse completion. */
  function Target(c: Callback): (k: nat)
    ensures c.OnStart? ==> k == c.index + 1
    ensures c.OnReverseComplete? ==> k == c.index
  {
    match c
    case OnStart(i) => i + 1
    case OnReverseComplete(i) => i
  }

  /** The guarded update a callback performs: the new id, and whether the setter was called at all. */
  function Fire(services: seq<Service>, activeId: int, c: Callback): (r: (int, bool))
    requires c.index + 1 < |services|
    ensures r.0 == services[Target(c)].id
    ensures r.1 <==> activeId != services[Target(c)].id
  {
    var id := services[Target(c)].id;
    if activeId != id then (id, true) else (activeId, false)
  }

  function FireAll(services: seq<Service>, activeId: int, cs: seq<Callback>): int
    requires forall i :: 0 <= i < |cs| ==> cs[i].index + 1 < |services|
    decreases |cs|
  {
    if cs == [] then activeId else FireAll(services, Fire(services, activeId, cs[0]).0, cs[1..])
  }

  /**
   * Whatever order the scrub fires the callbacks in, the service shown is the
   * target of the last callback (or the one shown before, when none fired).
   */
  lemma {:induction false} LastCallbackDecides(services: seq<Service>, activeId: int, cs: seq<Callback>)
    requires DistinctServiceIds(services)
    requires |cs| > 0
    requires forall i :: 0 <= i < |cs| ==> cs[i].index + 1 < |services|
    ensures ActiveService(services, FireAll(services, activeId, cs)) == services[Target(cs[|cs| - 1])]
    decreases |cs|
  {
    if |cs| == 1 {
      ActiveServiceOfOwnId(services, Target(cs[0]));
    } else {
      LastCallbackDecides(services, Fire(services, activeId, cs[0]).0, cs[1..]);
    }
  }

  /**
   * Scrubbing forward over transition `i` from service `i`, then back: both
   * guards let the update through, and service `i` is shown again.
   */
  lemma ForwardThenReverse(services: seq<Service>, i: nat)
    requires DistinctServiceIds(services)
    requires i + 1 < |services|
    ensures var (forward, called) := Fire(services, services[i].id, OnStart(i));
      called && ActiveService(services, forward) == services[i + 1]
    ensures var forward := Fire(services, services[i].id, OnStart(i)).0;
      var (back, called) := Fire(services, forward, OnReverseComplete(i));
      called && back == services[i].id && ActiveService(services, back) == services[i]
  {
    ActiveServiceOfOwnId(services, i + 1);
    ActiveServiceOfOwnId(services, i);
  }

  // ---------------------------------------------------------------- Card stack

  /** A card's inline style: stacking order, scale in percent, downward offset in pixels. */
  datatype CardStyle = CardStyle(zIndex: int, scalePercent: int, translateYPx: int)

  function CardStyleAt(count: nat, index: nat): CardStyle
  {
    CardStyle(count - index, 100 - 5 * index, 20 * index)
  }

  /** The styles of the cards: earlier cards sit higher in the stack and lower cards peek out further below. */
  function CardStack(count: nat): (cards: seq<CardStyle>)
    ensures |cards| == count
    ensures forall i :: 0 <= i < count ==> cards[i] == CardStyleAt(count, i)
    ensures forall i, j :: 0 <= i < j < count ==> cards[i].zIndex > cards[j].zIndex && cards[i].translateYPx < cards[j].translateYPx
    ensures forall i :: 0 <= i < count ==> 1 <= cards[i].zIndex <= count
    ensures count > 0 ==> cards[0].zIndex == count
  {
    seq(count, i requires 0 <= i => CardStyleAt(count, i))
  }

  /** The section's `activeServiceId` cell and the two callbacks that move it. */
  class ScrollStack {
    const services: seq<Service>
    var activeServiceId: int

    constructor (services: seq<Service>)
      requires |services| > 0
      ensures this.services == services && activeServiceId == services[0].id
    {
      this.services := services;
      activeServiceId := services[0].id;
    }

    function Shown(): (s: Service)
      reads this
      requires |services| > 0
      ensures s in services
    {
      ActiveService(services, activeServiceId)
    }

    method OnStart(t: Transition) returns (called: bool)
      requires t.index + 1 < |services|
      modifies this
      ensures (activeServiceId, called) == Fire(services, old(activeServiceId), Callback.OnStart(t.index))
    {
      var newService := services[t.index + 1];
      called := activeServiceId != newService.id;
      if called {
        activeServiceId := newService.id;
      }
    }

    method OnReverseComplete(t: Transition) returns (called: bool)
      requires t.index + 1 < |services|
      modifies this
      ensures (activeServiceId, called) == Fire(services, old(activeServiceId), Callback.OnReverseComplete(t.index))
    {
      var currentService := services[t.index];
      called := activeServiceId != currentService.id;
      if called {
        activeServiceId := currentService.id;
      }
    }
  }
}
