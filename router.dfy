/**
 * The application shell: the route table that picks the page for a pathname,
 * and the effect that, whenever the pathname or the hash changes, scrolls the
 * window back to the top or schedules a smooth scroll to the contact section.
 */
module Router {
  import opened Js
  import opened Registry

  /** The state a navigation may carry along (ProductsPage's "Get Quote" sets it). */
  datatype NavState = NavState(scrollToContact: bool)

  /** A location as the router reports it; `hash` is "" when the URL has none. */
  datatype Location = Location(pathname: string, hash: string, state: Option<NavState>)

  /** The side effects the scroll effect can issue, in the order it issues them. */
  datatype Action =
    | ScrollTo(x: int, y: int)
    | ScheduleSmoothScroll(elementId: string, delayMs: nat)

  const ContactId: string := "contact"
  const ContactScrollDelayMs: nat := 100

  /** Scroll to the origin: issued whenever the location has no hash. */
  const ScrollToTop: Action := ScrollTo(0, 0)
  /** A timer that later scrolls the contact section into view. */
  const ContactScroll: Action := ScheduleSmoothScroll(ContactId, ContactScrollDelayMs)

  /**
   * The actions of one run of the effect. `mounted` holds the ids of the
   * elements in the document at that moment.
   */
  function ScrollEffect(loc: Location, mounted: set<string>): (actions: seq<Action>)
    ensures ScrollToTop in actions <==> loc.hash == ""
    ensures ContactScroll in actions <==> loc.pathname == "/" && loc.hash == "#/" && ContactId in mounted
    ensures forall a :: a in actions ==> a == ScrollToTop || a == ContactScroll
    ensures |actions| <= 1
  {
    var top := if loc.hash == "" then [ScrollToTop] else [];
    var contact := if loc.pathname == "/" && loc.hash == "#/" && ContactId in mounted then [ContactScroll] else [];
    top + contact
  }

  /**
   * A location change: the effect runs on mount and whenever the pathname or the
   * hash differs from the previous location; a change of state alone does not run it.
   */
  function OnLocationChange(previous: Option<Location>, current: Location, mounted: set<string>): (actions: seq<Action>)
    ensures previous.None? ==> actions == ScrollEffect(current, mounted)
    ensures previous.Some? && previous.value.pathname == current.pathname && previous.value.hash == current.hash ==> actions == []
    ensures previous.Some? && (previous.value.pathname != current.pathname || previous.value.hash != current.hash) ==>
      actions == ScrollEffect(current, mounted)
  {
    match previous
    case None => ScrollEffect(current, mounted)
    case Some(p) => if p.pathname == current.pathname && p.hash == current.hash then [] else ScrollEffect(current, mounted)
  }

  /** Scroll-to-top and the contact scroll never happen together, and a missing contact element means no action at all. */
  lemma ScrollActionsExclusive(loc: Location, mounted: set<string>)
    ensures !(ScrollToTop in ScrollEffect(loc, mounted) && ContactScroll in ScrollEffect(loc, mounted))
    ensures loc.hash != "" && ContactId !in mounted ==> ScrollEffect(loc, mounted) == []
    ensures loc.hash == "" ==> ScrollEffect(loc, mounted) == [ScrollToTop]
  {
  }

  /** The navigation state is never consulted: only the pathname and the hash matter. */
  lemma StateIsIgnored(pathname: string, hash: string, s1: Option<NavState>, s2: Option<NavState>, mounted: set<string>)
    ensures ScrollEffect(Location(pathname, hash, s1), mounted) == ScrollEffect(Location(pathname, hash, s2), mounted)
  {
  }

  /** The pages a route can render. */
  datatype Page = HomePage | ProductsPage | ServicesPage

  /** The route table: exact matching of three paths; any other pathname renders no page. */
  function Route(pathname: string): (page: Option<Page>)
    ensures page == Some(HomePage) <==> pathname == "/"
    ensures page == Some(ProductsPage) <==> pathname == "/products"
    ensures page == Some(ServicesPage) <==> pathname == "/services"
    ensures page == None <==> pathname !in {"/", "/products", "/services"}
  {
    if pathname == "/" then Some(HomePage)
    else if pathname == "/products" then Some(ProductsPage)
    else if pathname == "/services" then Some(ServicesPage)
    else None
  }

  /** Distinct routed pathnames select distinct pages. */
  lemma RouteIsInjective(p: string, q: string)
    requires Route(p).Some? && Route(p) == Route(q)
    ensures p == q
  {
  }

  /** Home, Products and Services link to routes; About, Blog and Contact link to no route of their own. */
  lemma NavLinksAgainstRoutes()
    ensures Route(NavLinks[0].path) == Some(HomePage)
    ensures Route(NavLinks[2].path) == Some(ProductsPage)
    ensures Route(NavLinks[3].path) == Some(ServicesPage)
    ensures Route(NavLinks[1].path).None? && Route(NavLinks[4].path).None? && Route(NavLinks[5].path).None?
  {
  }
}
