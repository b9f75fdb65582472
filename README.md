# RARITONE storefront: a verified model of its component logic

The RARITONE storefront is a React front end: a home page with a decorative
scroll-driven hero, a navigation bar, a search overlay and a review page.
Most of it is markup and animation. This project models the pieces of
sequential logic inside those components and proves what they promise:

- **Search overlay** (`Search`, `Search.dfy`): the most-recently-used list of
  recent searches (query first, earlier copy dropped, at most five), the
  category filter with its `'All'` ↔ `''` mapping, the blank-query guard, the
  case-insensitive fallback matcher over name and tags, and the
  `SearchOverlay` class whose `HandleSearch` and `QueryChanged` update
  `searchResults`, `recentSearches` and `isLoading`.
- **Review page** (`Reviews`, `Reviews.dfy`): the ordered submission checks
  (rating first, then the trimmed comment), the reset after an accepted
  submission, the "hover overrides selection" star highlight, the average
  rating and the per-star distribution.
- **Navigation bar** (`Nav`, `Nav.dfy`): the menu / profile / login-modal
  panel state as a class whose every handler keeps menu and profile from
  being open together, the cart badge (sum of quantities) and the wishlist
  badge (stored list's length).
- **Home page** (`Home`, `Home.dfy`): the wishlist toggle (append when absent,
  drop every copy when present), its toasts, the one-way `navbarVisible`
  latch and the mobile breakpoint.
- **Hero** (`Hero`, `Hero.dfy`): visibility is `offset <= 350` on the latest
  scroll offset, and the completion callback runs on every scroll update past
  350.
- Shared helpers: `Seqs` (`Array.prototype.filter`, occurrence counts, order,
  duplicate freedom), `Text` (`trim`, `toLowerCase`, `includes` over ASCII),
  `Common` (`Option`, toasts).

Calls into the backend, local storage and the browser are parameters: a
search outcome (`Fetched(results, recordFails)` or `FetchFailed`), the
stored list as an `Option<seq<string>>`, whether a user is signed in,
whether a click landed inside the menu container, the window width, and the
scroll offset as a `real`.

The completion callback is not one-shot, not delayed and not cancellable; it runs on every scroll notification with an offset above
350 (src/components/ButterflyHero.tsx:20-26), and the hero reappears when
the offset drops back to 350 or below. The threshold is 350 pixels, strict.

Two behaviours of the code worth knowing, modelled as written:

- In `handleSearch`, recording the search on a signed-in user's account
  happens inside the same `try` as the product search. If only that
  recording throws, the recent-search list has already been updated, and
  the `catch` then replaces the fetched results with the fallback matches
  over the suggested products (`Search.ResultsAfterSearch`).
- `navbarVisible` is set by the hero's callback (src/pages/Index.tsx:140-142)
  but never passed to the navigation bar (src/pages/Index.tsx:150-153), whose
  `isVisible` therefore keeps its default `true`. The latch has no visible
  effect.

## Model

| member | source | states |
|---|---|---|
| `Search.RecordSearch` | src/components/SearchOverlay.tsx:106 | the updated list is non-empty, holds at most 5 entries, starts with the query, is a prefix of the query followed by the old list without the query, and has length min(5, 1 + the others) |
| `Search.RecordSearchOnce` | src/components/SearchOverlay.tsx:106 | the query occurs exactly once in the updated list |
| `Search.RecordSearchNoDup` | src/components/SearchOverlay.tsx:106 | a duplicate-free list stays duplicate-free |
| `Search.RecordSearchKeepsOthers` | src/components/SearchOverlay.tsx:106 | an entry other than the query survives only if it was there before, and it survives whenever all the others still fit in 5 |
| `Search.RecordSearchIdempotent` | src/components/SearchOverlay.tsx:106 | recording the same query twice gives the same list as once |
| `Search.IsBlankQuery` | src/components/SearchOverlay.tsx:92 | the guard `!query.trim()`; `Search.BlankQueryIsWhitespace` states what it accepts |
| `Search.BlankQueryIsWhitespace` | src/components/SearchOverlay.tsx:92 | a query is rejected as blank iff every character is whitespace |
| `Search.CategoryValue` | src/components/SearchOverlay.tsx:183 | the value a category button stores ('All' as ''); specified with `Search.IsHighlighted` by `Search.PressedCategoryIsHighlighted` |
| `Search.IsHighlighted` | src/components/SearchOverlay.tsx:185 | the test that draws a button as selected; specified by `Search.PressedCategoryIsHighlighted` |
| `Search.PressedCategoryIsHighlighted` | src/components/SearchOverlay.tsx:183-185 | after pressing a category button, exactly that button is highlighted ('All' being stored as '') |
| `Search.FilterByCategory` | src/components/SearchOverlay.tsx:99-101 | the category narrowing of the fetched results; specified by `Search.FilterByCategoryExact` |
| `Search.FilterByCategoryExact` | src/components/SearchOverlay.tsx:99-101 | with '' or 'All' the results are unchanged; otherwise every product of that category is kept with its multiplicity, no other product is kept, and the order is kept |
| `Search.Matches` | src/components/SearchOverlay.tsx:117-118 | the case-insensitive name-or-tag test; specified by `Search.FallbackExact` |
| `Search.FallbackResults` | src/components/SearchOverlay.tsx:116-119 | the fallback results; specified by `Search.FallbackExact` |
| `Search.FallbackExact` | src/components/SearchOverlay.tsx:116-119 | a suggested product is kept, with its multiplicity, iff the lower-cased query occurs in its lower-cased name or in one of its lower-cased tags; order is kept |
| `Search.ResultsAfterSearch` | src/components/SearchOverlay.tsx:96-119 | the results after a non-blank search: the category-filtered fetch, or the fallback when the fetch throws or a signed-in user's recording throws; `Search.SearchOverlay.RunSearch` reaches it step by step |
| `Search.RecentAfterSearch` | src/components/SearchOverlay.tsx:105-107 | the recent list after a non-blank search; specified by `Search.RecentAfterSearchSpec` |
| `Search.RecentAfterSearchSpec` | src/components/SearchOverlay.tsx:96-114 | once the product search returns, the recent list starts with the query, holds it once and has at most 5 entries; if the search throws the list is unchanged |
| `Search.DemoProducts` | src/components/SearchOverlay.tsx:57-80 | the demo suggestion list used when loading the latest products fails: two products with distinct ids, categories that have a button, and the names and tags the fallback matcher searches |
| `Search.SearchOverlay.constructor` | src/components/SearchOverlay.tsx:16-21 | the initial state: empty query, results, suggestions and recent list, not loading, no category; local storage holds what it held before |
| `Search.SearchOverlay.SetSearchQuery` | src/components/SearchOverlay.tsx:160 | the query becomes the typed (or clicked) text |
| `Search.SearchOverlay.SelectCategory` | src/components/SearchOverlay.tsx:183 | 'All' is stored as '', any other category as itself, and the pressed button is highlighted |
| `Search.SearchOverlay.LoadRecentSearches` | src/components/SearchOverlay.tsx:84-89 | the list saved in local storage replaces the recent searches; no saved list leaves them |
| `Search.SearchOverlay.LoadSuggestedProducts` | src/components/SearchOverlay.tsx:50-82 | the latest products become the suggestions, or the demo products when loading them fails |
| `Search.SearchOverlay.QueryChanged` | src/components/SearchOverlay.tsx:38-48 | a blank query clears the results and changes nothing else; a non-blank one gives `HandleSearch`'s results, recent list and saved list, and ends not loading |
| `Search.SearchOverlay.HandleSearch` | src/components/SearchOverlay.tsx:91-123 | a blank query changes nothing; otherwise results, recent list, saved list and loading flag become the search outcome's, including the fallback when a call throws |
| `Search.SearchOverlay.RunSearch` | src/components/SearchOverlay.tsx:95-122 | the results become `ResultsAfterSearch`, the recent list `RecentAfterSearch`; once the product search returns, the updated list is also saved to local storage, before the account recording can throw; loading ends false |
| `Text.Trim` | src/components/SearchOverlay.tsx:92 | the trimmed text is a contiguous slice of the input with only whitespace before and after it, and it is empty or starts and ends with a non-whitespace character |
| `Text.TrimEmptyIffBlank` | src/pages/Reviews.tsx:92 | the trimmed text is empty iff the text is all whitespace |
| `Text.LowerStr` | src/components/SearchOverlay.tsx:117 | lower-casing keeps the length and lower-cases each character |
| `Text.ContainsIffOccurs` | src/components/SearchOverlay.tsx:117-118 | `includes` holds iff the needle occurs at some position of the text |
| `Seqs.Filter` | src/components/SearchOverlay.tsx:100 | a filter keeps only elements passing the test and is no longer than its input |
| `Seqs.RemoveAll` | src/pages/Index.tsx:126 | removing an id leaves no copy of it |
| `Reviews.BlankForm` | src/pages/Reviews.tsx:108-115 | the reset form has empty title and comment; name and email come from the user, and each is '' when there is no user or the user has no such field |
| `Reviews.CheckSubmission` | src/pages/Reviews.tsx:83-99 | rating 0 is rejected whatever the comment; otherwise a comment of only whitespace is rejected; accepted iff rating non-zero and comment not blank |
| `Reviews.VerdictToast` | src/pages/Reviews.tsx:84-106 | a warning toast is shown iff the submission is rejected |
| `Reviews.StarHighlighted` | src/pages/Reviews.tsx:215 | the test that a star is at most the hovered rating, or the selected one when none is hovered; specified by `Reviews.HighlightedPrefix` |
| `Reviews.HighlightedPrefix` | src/pages/Reviews.tsx:215 | the highlighted stars among 1..n are exactly the first min(n, hovered-or-selected) |
| `Reviews.HighlightedCount` | src/pages/Reviews.tsx:215 | of the five stars, the hovered rating many are lit while one is hovered, the selected rating many otherwise |
| `Reviews.AverageRating` | src/pages/Reviews.tsx:118 | the mean of the ratings; specified by `Reviews.AverageWithinBounds` and `Reviews.AverageBetweenMinAndMax` |
| `Reviews.AverageWithinBounds` | src/pages/Reviews.tsx:118 | the average lies within any bounds every rating respects |
| `Reviews.AverageBetweenMinAndMax` | src/pages/Reviews.tsx:118 | the average lies between the smallest and largest rating |
| `Reviews.RatingDistribution` | src/pages/Reviews.tsx:119-123 | one row per star, in the order 5, 4, 3, 2, 1 |
| `Reviews.StarCountsCoverAll` | src/pages/Reviews.tsx:121 | with every rating in 1..5, the five star counts add up to the number of reviews |
| `Reviews.DistributionTotals` | src/pages/Reviews.tsx:119-123 | each row's count is the number of reviews with that rating and its percentage is count / length × 100; with ratings in 1..5 the counts sum to the number of reviews and the percentages to 100 |
| `Reviews.ExistingSummary` | src/pages/Reviews.tsx:37-78 | the built-in reviews average 4.75 and count 3, 1, 0, 0, 0 for stars 5 to 1 |
| `Reviews.ReviewPage.constructor` | src/pages/Reviews.tsx:27-34 | no rating, no hover, and the blank form for the user |
| `Reviews.ReviewPage.LitStars` | src/pages/Reviews.tsx:203-215 | on a page whose ratings are in 0..5, the filled stars among the five are exactly the first `hoveredRating` ones, or the first `rating` ones when none is hovered |
| `Reviews.ReviewPage.ClickStar` | src/pages/Reviews.tsx:207 | the clicked star becomes the rating |
| `Reviews.ReviewPage.HoverStar` | src/pages/Reviews.tsx:208 | the hovered star becomes the hovered rating |
| `Reviews.ReviewPage.LeaveStar` | src/pages/Reviews.tsx:209 | leaving a star clears the hovered rating |
| `Reviews.ReviewPage.EditName` | src/pages/Reviews.tsx:233 | only the name field changes |
| `Reviews.ReviewPage.EditEmail` | src/pages/Reviews.tsx:244 | only the email field changes |
| `Reviews.ReviewPage.EditTitle` | src/pages/Reviews.tsx:258 | only the title field changes |
| `Reviews.ReviewPage.EditComment` | src/pages/Reviews.tsx:270 | only the comment field changes |
| `Reviews.ReviewPage.SubmitReview` | src/pages/Reviews.tsx:80-116 | the toast follows the ordered checks; a rejected submission leaves rating and form unchanged; an accepted one resets the rating to 0 and the form for the current user |
| `Nav.CartItemsCount` | src/components/Navbar.tsx:86 | the sum of the cart's quantities; specified by `Nav.CartItemsCountAppend` and `Nav.CartBadgeShown` |
| `Nav.CartItemsCountAppend` | src/components/Navbar.tsx:86 | the cart count of two carts together is the sum of their counts (0 for an empty cart) |
| `Nav.CartBadgeShown` | src/components/Navbar.tsx:284 | with no negative quantities the count is non-negative and the badge shows iff some item has a positive quantity |
| `Nav.StoredWishlistCount` | src/components/Navbar.tsx:62-69 | the count is the stored list's length, or 0 when nothing is stored |
| `Nav.Navbar.constructor` | src/components/Navbar.tsx:19-23 | all panels closed, wishlist count 0, not mobile |
| `Nav.Navbar.MenuClick` | src/components/Navbar.tsx:97-100 | the profile closes and the menu flips; menu and profile not both open |
| `Nav.Navbar.ProfileClick` | src/components/Navbar.tsx:88-95 | the menu closes; a signed-in user gets the profile, anyone else the login modal; menu and profile not both open |
| `Nav.Navbar.RouteChanged` | src/components/Navbar.tsx:81-84 | menu and profile both close |
| `Nav.Navbar.MouseDown` | src/components/Navbar.tsx:41-47 | the menu closes iff it was open and the click was outside the menu container; nothing else changes |
| `Nav.Navbar.MenuItemClick` | src/components/Navbar.tsx:327-330 | choosing a menu entry closes the menu |
| `Nav.Navbar.CloseProfile` | src/components/Navbar.tsx:423-426 | the backdrop, close button, entries and logout close the profile |
| `Nav.Navbar.CloseLoginModal` | src/components/Navbar.tsx:441 | the login modal closes |
| `Nav.Navbar.LoadWishlistCount` | src/components/Navbar.tsx:50-54 | a stored list sets the count to its length; no stored list leaves the count |
| `Nav.Navbar.WishlistStorageChanged` | src/components/Navbar.tsx:62-69 | the count becomes the stored list's length, or 0 |
| `Nav.Navbar.CheckMobile` | src/components/Navbar.tsx:30-32 | mobile iff the width is below 640 |
| `Home.Toggled` | src/pages/Index.tsx:112-126 | the wishlist after a toggle; specified by `Home.ToggleFlipsMembership`, `Home.ToggleLength`, `Home.ToggleKeepsOthers`, `Home.ToggleTwiceRestores` and `Home.ToggleKeepsNoDup` |
| `Home.ToggleToast` | src/pages/Index.tsx:120-136 | adding reports a success toast, removing an info toast |
| `Home.ToggleFlipsMembership` | src/pages/Index.tsx:113-126 | after a toggle the id is listed iff it was not before |
| `Home.ToggleLength` | src/pages/Index.tsx:112-115 | an absent id is appended at the end and the list grows by one; a present id's copies are all removed |
| `Home.RemoveAllLength` | src/pages/Index.tsx:126 | removing an id shortens the list by its number of copies |
| `Home.ToggleKeepsOthers` | src/pages/Index.tsx:112-126 | the other ids keep their multiplicities and their relative order |
| `Home.ToggleTwiceRestores` | src/pages/Index.tsx:113-126 | toggling an absent id twice gives back the original list |
| `Home.ToggleKeepsNoDup` | src/pages/Index.tsx:113-126 | a duplicate-free wishlist stays duplicate-free |
| `Home.ToggleAndNotify` | src/pages/Index.tsx:111-138 | after a toggle on the page and the 'wishlistUpdated' event it dispatches, the page's list is the toggle of the old one, the navbar's count is its length and the badge shows iff it is non-empty; the other panel and page fields are unchanged |
| `Home.IndexPage.constructor` | src/pages/Index.tsx:23-27 | empty wishlist, latch off, not mobile |
| `Home.IndexPage.LoadWishlist` | src/pages/Index.tsx:44-49 | a stored wishlist replaces the list; none leaves it |
| `Home.IndexPage.AddToWishlist` | src/pages/Index.tsx:111-138 | the list becomes its toggle, is stored, and the toast says which branch ran |
| `Home.IndexPage.ButterflyComplete` | src/pages/Index.tsx:140-142 | the latch is on afterwards, whatever it was |
| `Home.IndexPage.CheckMobile` | src/pages/Index.tsx:33-36 | mobile iff the width is below 768 |
| `Hero.ScrollUpdate` | src/components/ButterflyHero.tsx:20-27 | visible iff the offset is at most 350; the callback count grows by one iff the offset is above 350 and there is a callback |
| `Hero.Replay` | src/components/ButterflyHero.tsx:20-27 | the hero after a series of scroll notifications; specified by `Hero.VisibilityFollowsLatest`, `Hero.CompletionsPerTick`, `Hero.CountAbovePositive` and `Hero.NeverPastThreshold` |
| `Hero.VisibilityFollowsLatest` | src/components/ButterflyHero.tsx:20-27 | after any series of updates visibility depends only on the latest offset |
| `Hero.CompletionsPerTick` | src/components/ButterflyHero.tsx:21-23 | the callback runs once per update above 350, not once per crossing, and never without a callback |
| `Hero.CountAbovePositive` | src/components/ButterflyHero.tsx:21 | some update runs the callback iff some offset is above 350 |
| `Hero.NeverPastThreshold` | src/components/ButterflyHero.tsx:24-26 | offsets that never pass 350 leave the hero shown and never run the callback |
| `Hero.ScrollSequenceExample` | src/components/ButterflyHero.tsx:20-27 | offsets 0, 100, 399, 401, 450 run the callback three times and end hidden |
| `Hero.ButterflyHero.constructor` | src/components/ButterflyHero.tsx:11 | the hero starts visible and the callback has not run |
| `Hero.ButterflyHero.ScrollChanged` | src/components/ButterflyHero.tsx:19-30 | visibility and callback count follow `ScrollUpdate`; the home page's latch is set iff it was or the offset is above 350, and its wishlist, stored wishlist and mobile flag are untouched |

## Left out

- The scroll-driven interpolation of the hero's position, scale and opacity
  (`useTransform`, src/components/ButterflyHero.tsx:14-17): computed inside
  framer-motion, floating-point, and its clamping is not visible here.
- All animations, the JSX layout, styling, and HTML `required` validation.
- Timers: the 300 ms search debounce and its cancellation when the query
  changes again, and the 100 ms input-focus delay; the model runs the search
  that the debounce lets through.
- Backend and library calls (`searchProducts`, `getLatestProducts`,
  `addRecentSearch`, `addToCart`, `refreshCart`, `addToLocalCart`, `logout`,
  `navigate`, `encodeURIComponent`): their outcomes are parameters.
  `handleAddToCart` and `handleCategoryClick` in src/pages/Index.tsx only
  forward to these and are not modelled.
- `localStorage`, `JSON.parse`/`JSON.stringify` and window/document event
  listeners: stored lists are `Option<seq<string>>` values (the overlay's
  'recentSearches' entry is a field of `Search.SearchOverlay`, the page's
  'wishlist' entry a field of `Home.IndexPage`, and the navbar receives the
  'wishlist' entry as a parameter) and each listener is a method the caller
  invokes. Local storage is not shared between the model's classes. `Nav.Navbar.LoadWishlistCount` runs
  whenever the menu opens or closes; the model leaves that scheduling to the
  caller.
- `toFixed` and `Math.round` on the average: display rounding.
- IEEE double arithmetic: the average and the percentages are exact `real`s.
  `Reviews.DistributionTotals` proves that the percentages sum to exactly 100
  in that exact arithmetic; in doubles the sum can miss 100 by a rounding
  error (ratings 4, 3, 3 give 99.99999999999999). On the page's one list
  (5, 5, 4, 5) every value is exact in doubles as well.
- src/components/LiveBackground.tsx and src/components/CustomerReviews.tsx:
  DOM node creation, randomness, timers and a static carousel, with no
  stateable logic.
- Search.SearchOverlay.RunSearch: searches are modelled one at a time, each
  on the overlay's current state. In the code, each debounced search runs in
  the closure of the render that scheduled it and awaits the product search
  before it builds the new recent list, so overlapping searches read a stale
  list. The later one to finish can then drop the other's query from the
  recent list, or a slower, older search can overwrite the newer results.
- The intermediate `isLoading = true` while a search is awaited: the model's
  search is one step, so only the final `false` is visible.
- Text.Trim: strips ASCII whitespace only, not the Unicode spaces and line
  terminators `String.prototype.trim` also strips.
- Text.LowerStr: lower-cases ASCII letters only, not the rest of Unicode.
- Reviews.AverageWithinBounds: like `AverageRating` and `RatingDistribution`
  it requires a non-empty list; on an empty list the page would show NaN, but
  its only list is the fixed four built-in reviews.
- Reviews.ReviewPage.ClickStar: requires a star in 1..5, the only values the
  star buttons pass.
- Hero.ButterflyHero.ScrollChanged: the completion callback is modelled as
  the home page's `handleButterflyComplete`, the only callback passed to the
  hero; any other callback is not modelled.
