# MedFord website core, modelled in Dafny

This project models the client-side behaviour of the MedFord marketing site, a React
single-page application. The site has:

- a sticky header that hides while the visitor scrolls down and reappears when they scroll up;
- a router whose scroll effect resets the viewport or scrolls to the contact section;
- a home page with a hero headline, a logo strip, an auto-advancing gallery and a rotating social-media card;
- a services page whose cards stack while the visitor scrolls;
- a products page whose feature images slide into place one after another;
- a `RotatingText` component that cycles through a list of words and merges class names with `cn`;
- a set of content registries (navigation links, services, products, blog posts).

Each React state cell that an event handler updates is a Dafny `class`. Its fields are the
`useState` variables, and its methods are the handlers. Every method is proved against a pure
function of the old state, and the properties the site relies on are lemmas about those
functions. The rendering decisions that matter are modelled as data. These are which pill is
drawn behind which link, which image shows the lens, and which z-index, scale and offset each
card takes. The JavaScript built-ins the code depends on are written out in module `Js`:

- the truncating `%` operator;
- `String.prototype.split` and `Array.prototype.join` on one separator character;
- `filter(Boolean)` on strings.

Modules, one per source file plus two shared ones:

| module | models |
|---|---|
| `Js` | truncated remainder, split, join, filter(Boolean) |
| `Carousel` | the `(i + 1) % n` rotation shared by the gallery, the social card and `RotatingText`, and its cycle |
| `Registry` | `constants.ts` and the record types of `types.ts` |
| `Header` | `components/Header.tsx` |
| `Router` | `App.tsx` |
| `RotatingText` | `components/RotatingText.jsx` |
| `HomePage` | `pages/HomePage.tsx` |
| `ServicesPage` | `pages/ServicesPage.tsx` |
| `ProductsPage` | `pages/ProductsPage.tsx` |

The header's hide and close rule:

- The header hides exactly when the new scroll offset is both greater than the previous one and greater than 150.
- Hiding also closes the mobile menu.
- Any other scroll sample shows the header and leaves the menu alone.

The router's scroll effect:

- Without a fragment, every navigation scrolls to the top.
- With the fragment `#/` on `/`, and a mounted `contact` element, the effect schedules a smooth scroll after 100 ms.
- Any other fragment does nothing.
- The effect depends only on the pathname and the fragment.

The "Get Quote" button on the products page navigates to `/` with the state
`{ scrollToContact: true }`. `App.tsx` never reads that state. The model follows the code:
`ProductsPage.GetQuoteScrollsToTopOnly` proves that this navigation only scrolls to the top.

## Model

| member | source | states |
|---|---|---|
| Js.Rem | pages/HomePage.tsx:375 | JavaScript `%` truncates toward zero: the remainder differs from the dividend by a multiple of the divisor, has the dividend's sign and has magnitude below the divisor, which pins down its value |
| Js.Split | pages/HomePage.tsx:23 | splitting on a character gives one more piece than the string has separators, and no piece contains the separator |
| Js.Join | components/RotatingText.jsx:9 | the joined string begins with its first piece; with Js.JoinAppend, the pieces follow one another with one separator between neighbours |
| Js.Truthy | components/RotatingText.jsx:9 | `filter(Boolean)` keeps exactly the non-empty strings: a string is in the result iff it is a non-empty string of the input, nothing is dropped when all are non-empty, and the result is empty iff every input is empty |
| Js.TruthyAppend | components/RotatingText.jsx:9 | filtering a concatenation filters each part and keeps their order |
| Js.JoinAppend | components/RotatingText.jsx:9 | joining two concatenated non-empty lists puts exactly one separator between their joins |
| Js.ModUnique | pages/HomePage.tsx:375 | the remainder is the unique r in [0, n) with a = q·n + r |
| Js.JoinSplit | pages/HomePage.tsx:23 | joining the pieces of a split with the same separator gives back the original string |
| Js.SplitJoin | components/RotatingText.jsx:9 | splitting a join of separator-free pieces gives back those pieces |
| Carousel.Next | pages/HomePage.tsx:516 | the next index is in range: the successor before the last item, and 0 after the last item |
| Carousel.AdvanceIsShift | components/RotatingText.jsx:31 | k ticks from index i land on (i + k) mod n |
| Carousel.FullCycle | components/RotatingText.jsx:31 | n ticks return to the starting item, and no smaller positive number of ticks does |
| Carousel.EveryItemComesRound | pages/HomePage.tsx:514-519 | every item is reached from every start within fewer than n ticks |
| Carousel.Indicators | pages/HomePage.tsx:714-719 | one indicator per item, and indicator i is active iff i is the current item |
| Carousel.ExactlyOneIndicator | pages/HomePage.tsx:714-719 | exactly one indicator is active when the cursor is in range |
| Registry.IncreasingIdsAreOrdered | constants.ts:14-47 | ids that increase entry by entry increase between any two entries |
| Registry.IncreasingIdsAreDistinct | constants.ts:14-47 | ids that increase entry by entry are pairwise distinct |
| Registry.NavLinksWellFormed | constants.ts:5-12 | six navigation links with pairwise distinct names (the header's list keys) and pairwise distinct paths |
| Registry.ServicesWellFormed | constants.ts:14-47 | four services whose ids are 1, 2, 3, 4 in order, so they are pairwise distinct |
| Registry.ProductsWellFormed | constants.ts:49-54 | four products with pairwise distinct ids |
| Registry.BlogPostsWellFormed | constants.ts:56-81 | three blog posts with pairwise distinct ids and slugs |
| Header.Step | components/Header.tsx:27-39 | a scroll sample hides the header iff it moves down past 150, and hiding closes the menu; a location change closes the menu; the toggle flips it; no other event touches `hidden` |
| Header.Samples | components/Header.tsx:27-29 | each scroll sample carries the previous sample's offset, and the first carries the given previous value |
| Header.HideThresholdIsStrict | components/Header.tsx:29 | at exactly 150 the header stays visible even when scrolling down, and just past 150 it hides |
| Header.ToggleTwice | components/Header.tsx:107 | two toggles restore the menu, and the header visibility is unchanged |
| Header.HiddenChangesOnlyOnScroll | components/Header.tsx:37-39 | events other than scrolling never change whether the header is hidden |
| Header.LastSampleDecidesHidden | components/Header.tsx:27-35 | after a run of delivered scroll samples (each differing from the one before) the header is hidden iff the last one moved down past 150 |
| Header.SamplesCloseMenuIffOneHides | components/Header.tsx:29-33 | after a run of scroll samples the menu is closed iff it was closed before or some sample hid the header |
| Header.ScrollDirectionDecides | components/Header.tsx:29-34 | after delivered samples, a sample that moves down past 150 hides the header, and a following sample back up shows it again |
| Header.PillFor | components/Header.tsx:85-94 | a link gets the active pill iff its path is the current pathname, and the hover pill iff it is not |
| Header.DesktopPills | components/Header.tsx:70-102 | one pill decision per navigation link, in order |
| Header.AtMostOneActive | components/Header.tsx:85 | with distinct link paths at most one link carries the active pill |
| Header.HashLinksNeverActive | components/Header.tsx:85 | the in-page `/#` links never carry the active pill on a pathname without `#` |
| Header.OnlyHomeActiveAtRoot | components/Header.tsx:85 | on `/` the Home link, and only the Home link, carries the active pill |
| Header.MobileMenu | components/Header.tsx:117-131 | the mobile menu lists every navigation link when open and nothing when closed |
| Header.HeaderState.constructor | components/Header.tsx:22-24 | the header starts visible with the menu closed |
| Header.HeaderState.OnScrollChange | components/Header.tsx:27-35 | the new state is `Step` of the old state on the scroll sample |
| Header.HeaderState.OnLocationChange | components/Header.tsx:37-39 | the menu closes and the visibility is unchanged |
| Header.HeaderState.OnToggle | components/Header.tsx:107 | the menu flips and the visibility is unchanged |
| Router.ScrollEffect | App.tsx:30-45 | scroll to the top iff there is no fragment; schedule the 100 ms smooth scroll to `contact` iff the path is `/`, the fragment is `#/` and the element is mounted; no other action, and at most one |
| Router.OnLocationChange | App.tsx:45 | the effect runs on the first render and whenever the pathname or the fragment changes, and produces nothing otherwise |
| Router.ScrollActionsExclusive | App.tsx:32-43 | a navigation never both scrolls to the top and schedules the contact scroll |
| Router.StateIsIgnored | App.tsx:30-45 | the navigation state has no influence on the scroll actions |
| Router.Route | App.tsx:52-56 | `/`, `/products` and `/services` map to their pages, and every other path has no page |
| Router.RouteIsInjective | App.tsx:52-56 | distinct routed paths render distinct pages |
| Router.NavLinksAgainstRoutes | constants.ts:5-12 | the Home, Products and Services links reach their pages, and the About, Blog and Contact links match no route of their own |
| RotatingText.Cn | components/RotatingText.jsx:8-10 | the merged class string is empty iff every class is empty |
| RotatingText.CnDropsEmpty | components/RotatingText.jsx:9 | empty classes contribute nothing to the merged string |
| RotatingText.CnAppend | components/RotatingText.jsx:8-10 | for any number of arguments: two argument lists that each contribute a class merge with exactly one space between their results |
| RotatingText.CnTwo | components/RotatingText.jsx:9 | two non-empty classes merge with exactly one space between them |
| RotatingText.DefaultClassNames | components/RotatingText.jsx:38-46 | without extra classes the container and the word get exactly their base classes |
| RotatingText.CnRoundTrip | components/RotatingText.jsx:9 | splitting the merged string on spaces gives back the non-empty space-free classes |
| RotatingText.Tick | components/RotatingText.jsx:31 | with words the index moves to the next one in rotation; with no words it becomes NaN and stays NaN |
| RotatingText.Shown | components/RotatingText.jsx:48 | a word is shown iff the index is a number within the word list, and it is that word |
| RotatingText.TicksFollowCarousel | components/RotatingText.jsx:31 | k interval ticks move the word index exactly as k rotation steps |
| RotatingText.TicksReturnAfterN | components/RotatingText.jsx:31 | after as many ticks as there are words the index is back where it started, and never after fewer |
| RotatingText.EmptyTextsShowNothing | components/RotatingText.jsx:14-31 | with the default empty word list no tick ever shows a word |
| RotatingText.RotatingTextState.Displayed | components/RotatingText.jsx:48 | the visible word is the one at the current index |
| RotatingText.RotatingTextState.constructor | components/RotatingText.jsx:27 | the index starts at 0 |
| RotatingText.RotatingTextState.OnInterval | components/RotatingText.jsx:29-35 | the new index is `Tick` of the old index over the word count |
| HomePage.AnimatedWords | pages/HomePage.tsx:22-23 | the `AnimatedText` helper (declared in the page but not rendered by it) breaks its text into one word per space-separated piece, with no space inside any word |
| HomePage.AnimatedWordsRejoin | pages/HomePage.tsx:23 | the word pieces, in order, lose nothing of the text: joined with single spaces they give it back (the renderer separates the spans with a right margin rather than space characters) |
| HomePage.InvestorStrip | pages/HomePage.tsx:301-327 | the scrolling strip is the six investor logos twice over: twelve items, the second half equal to the first |
| HomePage.FeaturedProduct | pages/HomePage.tsx:229 | the featured product is the first product of the registry |
| HomePage.ImageIndex | pages/HomePage.tsx:375 | the image index is page mod 3 for any non-negative page (so page 0 shows the first image), differs from the page by a multiple of 3, and is at most 0 for a negative page |
| HomePage.ImageAt | pages/HomePage.tsx:424-428 | a non-negative page shows the gallery image at that page modulo 3; there is no image (the render error) exactly when the remainder is negative |
| HomePage.IntervalsRotateImages | pages/HomePage.tsx:381-386 | k timer ticks from page p show the image k places further round the gallery |
| HomePage.GalleryCycle | pages/HomePage.tsx:381-386 | three ticks bring the same image back |
| HomePage.DirectionTo | pages/HomePage.tsx:388-391 | jumping to a later image slides forward, and jumping to the same or an earlier one slides backward |
| HomePage.EnterX | pages/HomePage.tsx:357-360 | forward slides enter from the right and backward slides from the left |
| HomePage.ExitX | pages/HomePage.tsx:366-370 | forward slides leave to the left and backward slides to the right |
| HomePage.SlideOffsetsOpposite | pages/HomePage.tsx:356-371 | a slide with a direction leaves on the side opposite to the one it entered from; with direction 0 it enters and leaves on the left |
| HomePage.Gallery.constructor | pages/HomePage.tsx:374 | the gallery starts at page 0 with direction 0, showing the first image |
| HomePage.Gallery.Current | pages/HomePage.tsx:425 | a non-negative page shows the image at that page modulo 3 |
| HomePage.Gallery.Paginate | pages/HomePage.tsx:377-379 | the page moves by the given step and the direction becomes that step |
| HomePage.Gallery.OnInterval | pages/HomePage.tsx:381-386 | a tick moves one page forward and shows the next image round the gallery |
| HomePage.Gallery.SetPageToIndex | pages/HomePage.tsx:388-391 | the page becomes the chosen index and the direction records whether it moved forward |
| HomePage.RenderPost | pages/HomePage.tsx:523-650 | Twitter, Instagram and LinkedIn posts each get their own kind of card, showing the post, and any other platform renders nothing |
| HomePage.EverySocialPostRenders | pages/HomePage.tsx:477-509 | each of the three social posts has a card |
| HomePage.SocialDots | pages/HomePage.tsx:714-719 | three dots, exactly one active, the one for the current post |
| HomePage.SocialFeed.constructor | pages/HomePage.tsx:512 | the feed starts at the first post |
| HomePage.SocialFeed.CurrentCard | pages/HomePage.tsx:521 | the card shown is the rendering of the current post |
| HomePage.SocialFeed.OnTimer | pages/HomePage.tsx:514-519 | a tick moves to the next post in rotation |
| ServicesPage.FirstWithId | pages/ServicesPage.tsx:34 | the first position whose id matches, or none iff no service has that id |
| ServicesPage.ActiveService | pages/ServicesPage.tsx:34 | the shown service comes from the list, has the active id when one matches, and otherwise is the first service |
| ServicesPage.ActiveServiceOfOwnId | pages/ServicesPage.tsx:34 | with distinct ids, activating a service's id shows that service |
| ServicesPage.InitialServiceShown | pages/ServicesPage.tsx:33-34 | on arrival the first service is shown |
| ServicesPage.BuildTimeline | pages/ServicesPage.tsx:45-105 | no pinned timeline iff the viewport is narrower than 768 px; otherwise the pin lasts (n − 1) × 100 % and there is one transition from each card to the next |
| ServicesPage.Target | pages/ServicesPage.tsx:96-103 | a transition's start activates the next card and its reverse completion reactivates its own card |
| ServicesPage.Fire | pages/ServicesPage.tsx:96-103 | a callback sets the active id to its target's id and reports whether that changed it |
| ServicesPage.LastCallbackDecides | pages/ServicesPage.tsx:96-103 | after any sequence of callbacks the shown service is the target of the last one |
| ServicesPage.ForwardThenReverse | pages/ServicesPage.tsx:96-103 | scrolling past a transition and back restores the earlier service |
| ServicesPage.CardStack | pages/ServicesPage.tsx:139-140 | earlier cards sit strictly above later ones and each card is pushed further down than the one before; z-indices run from n down to 1 |
| ServicesPage.ScrollStack.constructor | pages/ServicesPage.tsx:33 | the first service starts active |
| ServicesPage.ScrollStack.Shown | pages/ServicesPage.tsx:34 | the shown service is one of the services |
| ServicesPage.ScrollStack.OnStart | pages/ServicesPage.tsx:96-99 | the active id becomes the next card's id, as `Fire` states |
| ServicesPage.ScrollStack.OnReverseComplete | pages/ServicesPage.tsx:100-103 | the active id becomes the card's own id, as `Fire` states |
| ProductsPage.Arrival | pages/ProductsPage.tsx:54-56 | navigating to a path without `#` lands on that path with no fragment and with the given state |
| ProductsPage.GetQuoteScrollsToTopOnly | pages/ProductsPage.tsx:54-56 | "Get Quote" from the products page scrolls to the top, and never to the contact section |
| ProductsPage.InitialLayout | pages/ProductsPage.tsx:111-112 | the first image is in place and every other image waits below at 100 |
| ProductsPage.Entered | pages/ProductsPage.tsx:119-135 | entering feature i puts image i in place, moves the previous image up to −100, and leaves the others alone; positions stay among −100, 0, 100 |
| ProductsPage.EnteredBack | pages/ProductsPage.tsx:136-156 | re-entering feature i from below puts image i in place, moves the next image down to 100, and leaves the others alone; positions stay among −100, 0, 100 |
| ProductsPage.Staircase | pages/ProductsPage.tsx:111-135 | every image position is −100, 0 or 100 |
| ProductsPage.EnterInOrder | pages/ProductsPage.tsx:114-135 | entering the first k features in order keeps one position per image, in range, with image k in place |
| ProductsPage.EnterStepsDown | pages/ProductsPage.tsx:119-135 | from the layout with card k active, entering card k + 1 gives the layout with card k + 1 active |
| ProductsPage.EnterBackStepsUp | pages/ProductsPage.tsx:136-156 | re-entering card k from card k + 1 restores the layout with card k active, undoing EnterStepsDown |
| ProductsPage.EnterInOrderIsStaircase | pages/ProductsPage.tsx:111-135 | after entering features 0 to k in order the earlier images sit above at −100, image k is in place, and the later ones wait below at 100 |
| ProductsPage.ImageLayers | pages/ProductsPage.tsx:181-183 | the active image is on top with the lens, and every other image is below without it |
| ProductsPage.ExactlyOneLens | pages/ProductsPage.tsx:181-185 | exactly one image carries the lens when the active index is in range |
| ProductsPage.CardLooks | pages/ProductsPage.tsx:208-213 | the active card is full size and opaque; the others are at 95 % scale and 60 % opacity |
| ProductsPage.ScrollingFeatures.constructor | pages/ProductsPage.tsx:102 | the first feature starts active and no image has been moved yet |
| ProductsPage.ScrollingFeatures.Setup | pages/ProductsPage.tsx:104-158 | on a narrow viewport nothing changes and no triggers are registered; otherwise one trigger per feature and the initial layout |
| ProductsPage.ScrollingFeatures.OnEnter | pages/ProductsPage.tsx:119-135 | the active index and the image positions become those of `Entered` |
| ProductsPage.ScrollingFeatures.OnEnterBack | pages/ProductsPage.tsx:136-156 | the active index and the image positions become those of `EnteredBack` |

## Left out

- `server.js` (static file server), `components/Footer.tsx` and `components/OurTeam.jsx`: presentation and hosting only; they hold no state the core depends on.
- Animation timing, easing, springs and durations (framer-motion and GSAP): only the target values of each tween and the order of the callbacks are modelled. The intervals' periods are not modelled, only the order of their ticks; the 100 ms contact delay is recorded as a constant, with no clock.
- The DOM and the browser: `window.scrollY`, `innerWidth` and `getElementById` are parameters. These are an integer offset, an integer width and a set of mounted ids. `scrollTo` and `setTimeout` are returned as actions. Scroll offsets are integers, while the browser reports fractional pixels.
- Timer and trigger clean-up on unmount (`clearInterval`, `ctx.revert()`): component lifetimes are not modelled.
- React Router path matching: paths are compared as exact strings, so case-insensitive matching and trailing slashes are not modelled.
- The prose fields of the registries: descriptions, long descriptions, blog excerpts, blog images, social captions and counters. Also the service icons. Nothing branches on them.
- The local `BLOG_POSTS` list in `pages/HomePage.tsx:729` (the page does not import the registry's list): it is only rendered.
- `ServicesPage` mobile fade tweens and the `if (!section) return` guard: the model takes the section as present. The `.reverse()` of the card list only changes DOM order, and stacking is decided by the z-index modelled in `CardStack`.
- ServicesPage.CardStack: scale is kept as an integer percentage (100 − 5·i), while the source computes a floating-point scale.
- `RotatingText`: a change of the `texts` prop after mount is not modelled (the list is fixed at construction). The unused `splitBy` prop and the spring `transition` passed to each word are left out too.
- `ProductsPage`: the model assumes the feature cards and feature images come from the same `features` list, so they have the same length, as they do in the source. GSAP's `overwrite` and the `fromTo` start values are not modelled.
- `HomePage` scroll-linked parallax (`useScroll`, `useTransform`, `useInView`): continuous floating-point styling only.
- Header.Samples: it also produces repeated offsets, which the "change" subscription of the header's scroll value never delivers; the lemmas about runs of samples (Header.LastSampleDecidesHidden, Header.ScrollDirectionDecides) therefore assume `Delivered` offsets, each differing from the one before.
- ServicesPage.Fire: the guards at `pages/ServicesPage.tsx:98` and `:102` read `activeIdRef.current`, which is refreshed only on render (`:38-39`); the model reads the state cell itself, so several callbacks firing between two renders, where the ref lags behind the state, are not modelled.
- HomePage.ImageAt: for a page whose remainder is negative the source throws a TypeError reading `.src`; the model returns `None` for it. No live caller reaches it, since the timer only moves the page up from 0 and the only call of `setPagetoIndex` (`pages/HomePage.tsx:464`) sits in commented-out markup; even there it sets the page to an index in 0..2.
