# ECOSCENE core in Dafny

ECOSCENE is a React + Redux front end for a regenerative-economy platform.
Its core, modelled here, is:

- the cart page's **pricing engine**: subtotal, free shipping, the capped
  eco-discount and the total, with exact arithmetic;
- the four **Redux slices** (`commerce`, `feed`, `guild`, `currency`);
- the rules of the **pages**: marketplace, guild directory and guild page,
  course catalogue and course page, registration wizard, wallet, social
  feed, profile and dashboard;
- the **record shapes** of the mock data (`User`, `Post`, `Product`,
  `Guild`, `Course`).

## How the model is organised

- **Data and helpers.**
  - `wrappers.dfy` holds `Option`, which stands for JavaScript's
    `undefined` and `null`.
  - `data.dfy` holds the records.
  - `seqs.dfy` holds the array operations the code is built from: `filter`,
    `find`/`findIndex` (a loop method proved against a function),
    `slice(0, n)`, a stable `sort` by key, and the include-or-append toggle.
  - `text.dfy` holds the string operations: `toLowerCase`, `includes`,
    `trim`, `split`.
- **Slices.** Each slice is a class (`CommerceStore`, `FeedStore`,
  `GuildStore`, `CurrencyStore`):
  - its fields are the slice state;
  - each reducer is a method that updates the fields in place;
  - each method states the new state as `old(State())` with the reducer's
    fields replaced, by functions on values (`AddLine`, `SetQuantity`,
    `Seqs.RemoveKey`, `Seqs.ReplaceFirst`, `Credit`);
  - lemmas prove what those functions promise;
  - searches by id go through the loop method `Seqs.FindIndex`.
- **Pages.** Each page's derived values are functions:
  - the fixtures (`mockProducts`, `mockUsers`, …) are parameters;
  - component state is a record datatype;
  - each event handler is a function from the old record to the new one.
- **Register.** The registration wizard's step counter is updated with
  `setActiveStep(prev => prev ± 1)`. It is the class `Register.Stepper`.

Arithmetic is exact. JavaScript numbers become `real`, or `int` for counts.
The model has no floating-point rounding; see "Left out".

## Model

| member | source | states |
|---|---|---|
| Seqs.Filter | ecoscene-ui/src/store/slices/commerceSlice.ts:51 | `filter` keeps exactly the elements that pass the test and never lengthens the list |
| Seqs.FilterIsSubsequence | ecoscene-ui/src/store/slices/feedSlice.ts:51 | a filtered list keeps its elements in their original order |
| Seqs.FilterAppend | ecoscene-ui/src/pages/social/Feed.tsx:184-189 | filtering a concatenation is concatenating the filtered parts |
| Seqs.FilterKeepsAll | ecoscene-ui/src/pages/commerce/Marketplace.tsx:84-93 | when every element passes, the filter returns the list unchanged |
| Seqs.FilterIdempotent | ecoscene-ui/src/store/slices/guildSlice.ts:48 | filtering twice by the same test is filtering once |
| Seqs.FilterCongruent | ecoscene-ui/src/pages/Dashboard.tsx:148 | two tests that agree on every element select the same list |
| Seqs.IndexOf | ecoscene-ui/src/store/slices/feedSlice.ts:45 | `findIndex`: the first index whose key matches, or -1 exactly when no element matches |
| Seqs.FindIndex | ecoscene-ui/src/store/slices/commerceSlice.ts:43 | the linear search (a loop) returns the same index as `IndexOf` |
| Seqs.AddIfAbsentFacts | ecoscene-ui/src/store/slices/commerceSlice.ts:63-65 | push only when no element has the key: no-op if present, append if absent, keys stay distinct |
| Seqs.RemoveKeyFacts | ecoscene-ui/src/store/slices/commerceSlice.ts:68 | removal by key keeps exactly the other elements in order, is idempotent, and changes nothing when the key is absent |
| Seqs.RemoveKeyKeepsUnique | ecoscene-ui/src/store/slices/guildSlice.ts:48 | removal by key keeps distinct keys distinct |
| Seqs.RemoveUniqueKey | ecoscene-ui/src/store/slices/guildSlice.ts:48 | with distinct keys, removing an element's key removes exactly that element: the list is one shorter |
| Seqs.ReplaceFirst | ecoscene-ui/src/store/slices/guildSlice.ts:51-54 | `s[findIndex] = x`: same length; unchanged when the key is absent; otherwise only the first match is replaced |
| Seqs.FilterUpdateRejected | ecoscene-ui/src/store/slices/feedSlice.ts:44-52 | overwriting a rejected element with another rejected one leaves the filter unchanged |
| Seqs.RemoveAfterReplace | ecoscene-ui/src/store/slices/feedSlice.ts:44-52 | deleting by id after an update by that id equals deleting alone |
| Seqs.AddThenRemove | ecoscene-ui/src/store/slices/guildSlice.ts:42-49 | join then leave leaves no element with the key, and gives back the list when the key was absent |
| Seqs.RemoveAfterPrepend | ecoscene-ui/src/store/slices/feedSlice.ts:41-52 | deleting the id of a post just unshifted equals deleting it from the old list |
| Seqs.Toggle | ecoscene-ui/src/pages/commerce/Marketplace.tsx:113-119 | the toggled element is present exactly when it was absent; every other element is unaffected |
| Seqs.ToggleTwice | ecoscene-ui/src/pages/learning/Courses.tsx:83-89 | toggling twice restores the membership, and the exact list when the element was absent |
| Seqs.Prefix | ecoscene-ui/src/pages/Dashboard.tsx:111 | `slice(0, n)` is the first min(n, length) elements |
| Seqs.RemoveAt | ecoscene-ui/src/pages/social/Feed.tsx:276 | `filter((_, i) => i !== index)` removes exactly that index, and nothing when the index is out of range |
| Seqs.InsertFacts | ecoscene-ui/src/pages/commerce/Marketplace.tsx:98-110 | inserting adds exactly one occurrence of the element and keeps a sorted list sorted |
| Seqs.InsertPerm | ecoscene-ui/src/pages/commerce/Marketplace.tsx:98-110 | insertion adds exactly one occurrence of the element |
| Seqs.InsertElements | ecoscene-ui/src/pages/commerce/Marketplace.tsx:98-110 | every element after insertion is the new element or one of the old ones |
| Seqs.InsertSorted | ecoscene-ui/src/pages/commerce/Marketplace.tsx:98-110 | insertion keeps a list sorted by key |
| Seqs.InsertWithKey | ecoscene-ui/src/pages/commerce/Marketplace.tsx:98-110 | insertion puts the new element before every old element with its key (stability) |
| Seqs.SortByFacts | ecoscene-ui/src/pages/commerce/Marketplace.tsx:98-110 | the sort orders by key, is a permutation, and keeps the input order among equal keys |
| Text.Lower | ecoscene-ui/src/pages/commerce/Marketplace.tsx:85-86 | `toLowerCase` keeps the length and maps each character |
| Text.ContainsAt | ecoscene-ui/src/pages/guilds/Guilds.tsx:60-62 | a needle occurring at some position is `includes`d |
| Text.ContainsWitness | ecoscene-ui/src/pages/guilds/Guilds.tsx:60-62 | `includes` implies an occurrence at some position |
| Text.ContainsIff | ecoscene-ui/src/pages/guilds/Guilds.tsx:60-62 | `includes` holds exactly when the needle occurs at some position |
| Text.ContainsEmpty | ecoscene-ui/src/pages/learning/Courses.tsx:66-68 | the empty search term is contained in every text, lowercased or not |
| Text.TrimStart | ecoscene-ui/src/pages/social/Feed.tsx:270 | removes exactly the leading white space |
| Text.TrimEnd | ecoscene-ui/src/pages/social/Feed.tsx:270 | removes exactly the trailing white space |
| Text.Trim | ecoscene-ui/src/pages/social/Feed.tsx:270 | `trim` removes a white-space prefix and a white-space suffix and keeps the middle, which neither begins nor ends with white space |
| Text.TrimIdempotent | ecoscene-ui/src/pages/social/Feed.tsx:270 | trimming twice is trimming once |
| Text.TrimStartBlank | ecoscene-ui/src/pages/guilds/GuildDetail.tsx:324 | left-trimming gives nothing exactly for an all-white-space text |
| Text.TrimEndBlank | ecoscene-ui/src/pages/guilds/GuildDetail.tsx:324 | right-trimming gives nothing exactly for an all-white-space text |
| Text.TrimEmpty | ecoscene-ui/src/pages/guilds/GuildDetail.tsx:324 | `trim()` is empty exactly when the text is white space only |
| Text.Split | ecoscene-ui/src/pages/social/Feed.tsx:270 | `split` gives at least one piece and no piece holds the separator |
| Text.SplitJoin | ecoscene-ui/src/pages/social/Feed.tsx:270 | joining the pieces with the separator gives back the input |
| Text.SplitCount | ecoscene-ui/src/pages/social/Feed.tsx:270 | there is one piece more than there are separators |
| CommerceSlice.AddLineFacts | ecoscene-ui/src/store/slices/commerceSlice.ts:42-49 | `addToCart` merges the quantity into the first line with the product id (other lines untouched), or appends |
| CommerceSlice.AddLineKeepsUnique | ecoscene-ui/src/store/slices/commerceSlice.ts:42-49 | merge-on-add keeps one line per product id |
| CommerceSlice.SetQuantity | ecoscene-ui/src/store/slices/commerceSlice.ts:53-58 | `updateCartQuantity` sets the first matching line's quantity, unvalidated, and changes nothing for an unknown id |
| CommerceSlice.RemoveLineFacts | ecoscene-ui/src/store/slices/commerceSlice.ts:50-52 | `removeFromCart` keeps exactly the other products' lines in order; idempotent; keeps ids distinct |
| CommerceSlice.RemovePresentLine | ecoscene-ui/src/store/slices/commerceSlice.ts:50-52 | with one line per product, removing a product in the cart drops exactly its line, so the cart is one line shorter |
| CommerceSlice.WishlistAddFacts | ecoscene-ui/src/store/slices/commerceSlice.ts:62-66 | `addToWishlist` is a no-op for a present id, appends otherwise, keeps ids distinct |
| CommerceSlice.CommerceStore.constructor | ecoscene-ui/src/store/slices/commerceSlice.ts:17-24 | the initial state; the invariant holds |
| CommerceSlice.CommerceStore.FetchProductsStart | ecoscene-ui/src/store/slices/commerceSlice.ts:30-33 | sets `loading`, clears `error`, nothing else |
| CommerceSlice.CommerceStore.FetchProductsSuccess | ecoscene-ui/src/store/slices/commerceSlice.ts:34-37 | replaces the products, clears `loading`, keeps `error` |
| CommerceSlice.CommerceStore.FetchProductsFailure | ecoscene-ui/src/store/slices/commerceSlice.ts:38-41 | clears `loading`, stores the message |
| CommerceSlice.CommerceStore.AddToCart | ecoscene-ui/src/store/slices/commerceSlice.ts:42-49 | the cart becomes `AddLine(old cart, item)`; one line per product is preserved |
| CommerceSlice.CommerceStore.RemoveFromCart | ecoscene-ui/src/store/slices/commerceSlice.ts:50-52 | the cart becomes `RemoveLine(old cart, id)`; the invariant is preserved; under the invariant, removing a product in the cart shortens it by exactly one line |
| CommerceSlice.CommerceStore.UpdateCartQuantity | ecoscene-ui/src/store/slices/commerceSlice.ts:53-58 | the cart becomes `SetQuantity(old cart, id, q)`; the invariant is preserved |
| CommerceSlice.CommerceStore.ClearCart | ecoscene-ui/src/store/slices/commerceSlice.ts:59-61 | empties the cart, nothing else |
| CommerceSlice.CommerceStore.AddToWishlist | ecoscene-ui/src/store/slices/commerceSlice.ts:62-66 | the wishlist becomes `AddIfAbsent(old, p)`; ids stay distinct |
| CommerceSlice.CommerceStore.RemoveFromWishlist | ecoscene-ui/src/store/slices/commerceSlice.ts:67-69 | the wishlist loses exactly the products with that id; ids stay distinct |
| CommerceSlice.CommerceStore.SetFilter | ecoscene-ui/src/store/slices/commerceSlice.ts:70-72 | replaces the filter, nothing else |
| FeedSlice.UpdatePostFacts | ecoscene-ui/src/store/slices/feedSlice.ts:44-49 | `updatePost` keeps the length and the id at every index, keeps ids distinct, and stores the payload when its id was present |
| FeedSlice.DeletePostFacts | ecoscene-ui/src/store/slices/feedSlice.ts:41-52 | `deletePost` keeps exactly the other posts in order; deleting after an update or an add equals deleting alone |
| FeedSlice.FeedStore.constructor | ecoscene-ui/src/store/slices/feedSlice.ts:15-22 | the initial state (no posts, `hasMore` true) |
| FeedSlice.FeedStore.FetchPostsStart | ecoscene-ui/src/store/slices/feedSlice.ts:28-31 | sets `loading`, clears `error` |
| FeedSlice.FeedStore.FetchPostsSuccess | ecoscene-ui/src/store/slices/feedSlice.ts:32-36 | appends the page after the old posts; `hasMore` iff the page is non-empty |
| FeedSlice.FeedStore.FetchPostsFailure | ecoscene-ui/src/store/slices/feedSlice.ts:37-40 | clears `loading`, stores the message |
| FeedSlice.FeedStore.AddPost | ecoscene-ui/src/store/slices/feedSlice.ts:41-43 | `unshift`: the new post first, the old ones after it in order |
| FeedSlice.FeedStore.UpdatePost | ecoscene-ui/src/store/slices/feedSlice.ts:44-49 | the posts become `ReplaceFirst(old, post)` |
| FeedSlice.FeedStore.DeletePost | ecoscene-ui/src/store/slices/feedSlice.ts:50-52 | the posts lose exactly those with the id |
| FeedSlice.FeedStore.SetFilter | ecoscene-ui/src/store/slices/feedSlice.ts:53-57 | stores the filter, empties the posts, sets `hasMore` |
| FeedSlice.FeedStore.ClearFeed | ecoscene-ui/src/store/slices/feedSlice.ts:58-61 | empties the posts, sets `hasMore`, keeps the filter |
| GuildSlice.UpdatedCurrent | ecoscene-ui/src/store/slices/guildSlice.ts:55-57 | the viewed guild is replaced exactly when its id is the payload's |
| GuildSlice.JoinThenLeave | ecoscene-ui/src/store/slices/guildSlice.ts:42-49 | join then leave removes the guild, and restores the list when the user was not in it |
| GuildSlice.LeavePresentGuild | ecoscene-ui/src/store/slices/guildSlice.ts:47-49 | with each guild at most once, leaving a joined guild drops exactly it, so the list is one shorter |
| GuildSlice.JoinFacts | ecoscene-ui/src/store/slices/guildSlice.ts:42-46 | `joinGuild` is idempotent and appends exactly when the id is absent |
| GuildSlice.GuildStore.constructor | ecoscene-ui/src/store/slices/guildSlice.ts:12-18 | the initial state; the invariant holds |
| GuildSlice.GuildStore.FetchGuildsStart | ecoscene-ui/src/store/slices/guildSlice.ts:24-27 | sets `loading`, clears `error` |
| GuildSlice.GuildStore.FetchGuildsSuccess | ecoscene-ui/src/store/slices/guildSlice.ts:28-31 | replaces the catalogue, clears `loading` |
| GuildSlice.GuildStore.FetchGuildsFailure | ecoscene-ui/src/store/slices/guildSlice.ts:32-35 | clears `loading`, stores the message |
| GuildSlice.GuildStore.SetUserGuilds | ecoscene-ui/src/store/slices/guildSlice.ts:36-38 | overwrites the user's guilds; the invariant holds iff the payload's ids are distinct |
| GuildSlice.GuildStore.SetCurrentGuild | ecoscene-ui/src/store/slices/guildSlice.ts:39-41 | sets the viewed guild |
| GuildSlice.GuildStore.JoinGuild | ecoscene-ui/src/store/slices/guildSlice.ts:42-46 | the user's guilds become `AddIfAbsent(old, g)`; ids stay distinct |
| GuildSlice.GuildStore.LeaveGuild | ecoscene-ui/src/store/slices/guildSlice.ts:47-49 | the user's guilds lose exactly those with the id; ids stay distinct; under the invariant, leaving a joined guild shortens the list by exactly one |
| GuildSlice.GuildStore.UpdateGuild | ecoscene-ui/src/store/slices/guildSlice.ts:50-58 | replaces the catalogue entry and the viewed guild with that id; the user's guilds are untouched |
| CurrencySlice.Credit | ecoscene-ui/src/store/slices/currencySlice.ts:53-55 | `balances[c] += amount`: the one balance moves by the signed amount, the others are untouched |
| CurrencySlice.BalancesExt | ecoscene-ui/src/store/slices/currencySlice.ts:15-19 | balances agreeing in all three currencies are equal |
| CurrencySlice.SumForConcat | ecoscene-ui/src/store/slices/currencySlice.ts:53-55 | per-currency sums of updates add over concatenation |
| CurrencySlice.SumForRemoveAt | ecoscene-ui/src/store/slices/currencySlice.ts:53-55 | removing one update removes its contribution from the sum |
| CurrencySlice.MultisetRemoveAt | ecoscene-ui/src/store/slices/currencySlice.ts:53-55 | removing matching elements from two permutations leaves permutations |
| CurrencySlice.SumForPermutation | ecoscene-ui/src/store/slices/currencySlice.ts:53-55 | per-currency sums do not depend on the order of updates |
| CurrencySlice.ApplyAllSnoc | ecoscene-ui/src/store/slices/currencySlice.ts:53-55 | one more `updateBalance` after a run is one more credit |
| CurrencySlice.ApplyAllBalance | ecoscene-ui/src/store/slices/currencySlice.ts:53-55 | after a run of updates each balance is its start plus that currency's amounts |
| CurrencySlice.ApplyAllOrderIndependent | ecoscene-ui/src/store/slices/currencySlice.ts:53-55 | dispatching the same updates in any order gives the same balances |
| CurrencySlice.CurrencyStore.constructor | ecoscene-ui/src/store/slices/currencySlice.ts:30-44 | balances 0; rates V 0.9, Y 1.0, Q 10.0 USD |
| CurrencySlice.CurrencyStore.SetBalances | ecoscene-ui/src/store/slices/currencySlice.ts:50-52 | replaces the balances |
| CurrencySlice.CurrencyStore.UpdateBalance | ecoscene-ui/src/store/slices/currencySlice.ts:53-55 | the balances become `Credit(old, c, amount)` |
| CurrencySlice.CurrencyStore.AddTransaction | ecoscene-ui/src/store/slices/currencySlice.ts:56-58 | `unshift`: the newest transaction first, the older ones after it in order |
| CurrencySlice.CurrencyStore.SetTransactions | ecoscene-ui/src/store/slices/currencySlice.ts:59-61 | replaces the history |
| CurrencySlice.CurrencyStore.SetExchangeRates | ecoscene-ui/src/store/slices/currencySlice.ts:62-64 | replaces the rates |
| CurrencySlice.CurrencyStore.SetLoading | ecoscene-ui/src/store/slices/currencySlice.ts:65-67 | sets `loading` |
| CurrencySlice.CurrencyStore.SetError | ecoscene-ui/src/store/slices/currencySlice.ts:68-70 | sets or clears `error` |
| Cart.DiscountRate | ecoscene-ui/src/pages/commerce/Cart.tsx:61-64 | 2% per certification, capped at 10%: 0 for none, 0.02·n up to five, 0.1 from five on |
| Cart.ComputeTotals | ecoscene-ui/src/pages/commerce/Cart.tsx:50-71 | total = subtotal + shipping − eco-discount, with shipping a function of the subtotal |
| Cart.SumConcat | ecoscene-ui/src/pages/commerce/Cart.tsx:51-53 | the `reduce` sums add over concatenation |
| Cart.SumSingle | ecoscene-ui/src/pages/commerce/Cart.tsx:51-53 | the sum over one line is that line's amount |
| Cart.SumUpdate | ecoscene-ui/src/pages/commerce/Cart.tsx:51-53 | replacing one line changes a sum by the difference of that line's amounts |
| Cart.EmptyCartTotals | ecoscene-ui/src/pages/commerce/Cart.tsx:50-71 | an empty cart totals exactly the shipping fee (10 in USD) |
| Cart.ShippingStep | ecoscene-ui/src/pages/commerce/Cart.tsx:56-57 | shipping is the fee below the currency's threshold and 0 at or above it; it never increases with the subtotal |
| Cart.LineDiscountCapped | ecoscene-ui/src/pages/commerce/Cart.tsx:60-66 | a line's discount lies in [0, 10% of its total], and is 0 without certifications |
| Cart.EcoDiscountBounds | ecoscene-ui/src/pages/commerce/Cart.tsx:60-66 | with non-negative prices and quantities, 0 ≤ eco-discount ≤ 10% of the subtotal |
| Cart.NoCertificationsNoDiscount | ecoscene-ui/src/pages/commerce/Cart.tsx:60-66 | no certified product, no discount |
| Cart.EcoDiscountPositive | ecoscene-ui/src/pages/commerce/Cart.tsx:60-66 | the discount is positive iff some certified line has a positive total |
| Cart.TotalLowerBound | ecoscene-ui/src/pages/commerce/Cart.tsx:68 | the total is at least shipping + 90% of the subtotal, so never negative |
| Cart.SubtotalAfterAdd | ecoscene-ui/src/store/slices/commerceSlice.ts:42-49 | `addToCart` raises the subtotal by exactly the added line's total, merged or appended |
| Cart.MergeRaisesSubtotal | ecoscene-ui/src/store/slices/commerceSlice.ts:44-45 | merging a quantity into a line raises the subtotal by that quantity's total |
| Cart.QuantityChangeSum | ecoscene-ui/src/store/slices/commerceSlice.ts:53-58 | a quantity update changes each sum by the difference of that line's amounts |
| Cart.LineChange | ecoscene-ui/src/pages/commerce/Cart.tsx:52 | a line's total and footprint move by price (footprint) × quantity difference |
| Cart.QuantityChangeKeepsCertifications | ecoscene-ui/src/pages/commerce/Cart.tsx:377 | quantity changes never change the certification count |
| Cart.CertificationsIgnoreQuantity | ecoscene-ui/src/pages/commerce/Cart.tsx:377 | the certification count depends only on the products, one count per line |
| Cart.QuantityTextRule | ecoscene-ui/src/pages/commerce/Cart.tsx:73-76 | typed text: a negative number dispatches nothing, a non-number or 0 dispatches 1, a positive number itself |
| Cart.QuantityButtonsRule | ecoscene-ui/src/pages/commerce/Cart.tsx:240-262 | plus adds one; minus works only above 1 and subtracts one; whatever is dispatched is ≥ 1 |
| Cart.QuantityControlsKeepPositive | ecoscene-ui/src/pages/commerce/Cart.tsx:73-76 | no control brings a line below 1 when all lines start at 1 or more |
| Cart.FreeShippingHintRule | ecoscene-ui/src/pages/commerce/Cart.tsx:323-326 | the free-shipping hint shows iff the subtotal is below the threshold |
| Cart.SampleOrders | ecoscene-ui/src/pages/commerce/Cart.tsx:50-71 | worked orders: e.g. 185 USD with 3 certifications gives 185 + 0 − 11.1 = 173.9 |
| Marketplace.FilteredProductsFacts | ecoscene-ui/src/pages/commerce/Marketplace.tsx:83-95 | a product is listed iff it passes search, category, certification and price tests; catalogue order |
| Marketplace.DefaultCriteriaFacts | ecoscene-ui/src/pages/commerce/Marketplace.tsx:75-78 | the starting filters list exactly the products priced in [0, 200] USD |
| Marketplace.SortedProductsFacts | ecoscene-ui/src/pages/commerce/Marketplace.tsx:97-111 | each sort mode permutes the filtered list into its promised order; any other mode keeps it |
| Marketplace.PriceLowIsStable | ecoscene-ui/src/pages/commerce/Marketplace.tsx:100-101 | equal prices keep their filtered order |
| Marketplace.CertificationToggle | ecoscene-ui/src/pages/commerce/Marketplace.tsx:113-119 | a checkbox removes a ticked certification and appends an unticked one; twice restores |
| Marketplace.Featured | ecoscene-ui/src/pages/commerce/Marketplace.tsx:363 | the featured strip is the first three sorted products |
| Marketplace.AddToCartClick | ecoscene-ui/src/pages/commerce/Marketplace.tsx:308-311 | the button dispatches one unit exactly for an in-stock product |
| Marketplace.AddToCartClickEffect | ecoscene-ui/src/pages/commerce/Marketplace.tsx:308-309 | a click leaves the product's line with one more unit, or a new line of one |
| Guilds.FilteredGuildsFacts | ecoscene-ui/src/pages/guilds/Guilds.tsx:58-70 | a guild is listed iff it matches search, category and "my guilds only"; catalogue order |
| Guilds.SearchFacts | ecoscene-ui/src/pages/guilds/Guilds.tsx:60-62 | the search ignores the query's case and the empty query matches all |
| Guilds.LowerIdempotent | ecoscene-ui/src/pages/guilds/Guilds.tsx:60-62 | lowercasing twice is lowercasing once |
| Guilds.DefaultFilterShowsAll | ecoscene-ui/src/pages/guilds/Guilds.tsx:49-51 | the starting filters list the whole catalogue in order |
| Guilds.MemberLabel | ecoscene-ui/src/pages/guilds/Guilds.tsx:287-293 | the card reads "Member" iff the guild's name is in the user's guilds, else "Join Guild" |
| Guilds.Chips | ecoscene-ui/src/pages/guilds/Guilds.tsx:264-276 | the first three tags, plus "+n" for the rest exactly when there are more than three |
| Courses.LevelNameNotOption | ecoscene-ui/src/pages/learning/Courses.tsx:53 | no lowercase course level equals a capitalised menu value |
| Courses.SpecificLevelHidesAll | ecoscene-ui/src/pages/learning/Courses.tsx:71 | as written, choosing a specific level lists no course |
| Courses.LevelOption | ecoscene-ui/src/pages/learning/Courses.tsx:53 | each level has a specific menu value |
| Courses.FilteredCoursesFacts | ecoscene-ui/src/pages/learning/Courses.tsx:64-76 | a course is listed iff it matches search, category and (intended) level; catalogue order |
| Courses.LevelOptionSelects | ecoscene-ui/src/pages/learning/Courses.tsx:71 | with the intended comparison a level's menu value lists exactly that level's courses |
| Courses.DefaultFilterShowsAll | ecoscene-ui/src/pages/learning/Courses.tsx:57-59 | the starting filters list the whole catalogue |
| Courses.Enrolled | ecoscene-ui/src/pages/learning/Courses.tsx:78 | the enrolled tab is the first three courses, or the whole catalogue when it has fewer than three |
| Courses.FeaturedCoursesFacts | ecoscene-ui/src/pages/learning/Courses.tsx:81 | at most four, all rated ≥ 4.5, the first such in catalogue order, all of them when fewer than four |
| Courses.BookmarkToggle | ecoscene-ui/src/pages/learning/Courses.tsx:83-89 | a bookmark click removes or appends the id; twice restores |
| CourseDetail.CourseFor | ecoscene-ui/src/pages/learning/CourseDetail.tsx:78 | the course with the route id, else the first course; undefined only for an empty catalogue |
| CourseDetail.CompletedInFacts | ecoscene-ui/src/pages/learning/CourseDetail.tsx:415 | a module's completed count is at most its lessons, 0 iff none and full iff all are completed |
| CourseDetail.ModuleFacts | ecoscene-ui/src/pages/learning/CourseDetail.tsx:415 | the same for one module's "completed/total" |
| CourseDetail.CountsBound | ecoscene-ui/src/pages/learning/CourseDetail.tsx:157-163 | completed lessons never exceed total lessons |
| CourseDetail.CountsNone | ecoscene-ui/src/pages/learning/CourseDetail.tsx:157-163 | no completed lesson iff no lesson anywhere is completed |
| CourseDetail.CountsAll | ecoscene-ui/src/pages/learning/CourseDetail.tsx:157-163 | completed equals total iff every lesson is completed |
| CourseDetail.CountsFacts | ecoscene-ui/src/pages/learning/CourseDetail.tsx:157-163 | the course-wide counts together |
| CourseDetail.ProgressFacts | ecoscene-ui/src/pages/learning/CourseDetail.tsx:157-163 | with lessons, progress is in [0, 100], 0 iff none and 100 iff all completed; NaN iff no lessons |
| CourseDetail.RatioFacts | ecoscene-ui/src/pages/learning/CourseDetail.tsx:162 | done/total·100 lies in [0, 100], is 0 iff done = 0 and 100 iff done = total |
| CourseDetail.Module1Completed | ecoscene-ui/src/pages/learning/CourseDetail.tsx:82-91 | the first module has 4 lessons, 2 completed |
| CourseDetail.Module2Completed | ecoscene-ui/src/pages/learning/CourseDetail.tsx:92-101 | the second module has 4 lessons, none completed |
| CourseDetail.Module3Completed | ecoscene-ui/src/pages/learning/CourseDetail.tsx:102-110 | the third module has 3 lessons, none completed |
| CourseDetail.TotalOfThree | ecoscene-ui/src/pages/learning/CourseDetail.tsx:158 | the total of three modules is the sum of their lesson counts |
| CourseDetail.CompletedOfThree | ecoscene-ui/src/pages/learning/CourseDetail.tsx:159-161 | the completed count of three modules is the sum of theirs |
| CourseDetail.CurriculumTotal | ecoscene-ui/src/pages/learning/CourseDetail.tsx:81-111 | the curriculum has 11 lessons |
| CourseDetail.CurriculumCompleted | ecoscene-ui/src/pages/learning/CourseDetail.tsx:81-111 | the curriculum has 2 completed lessons |
| CourseDetail.CourseModulesCounts | ecoscene-ui/src/pages/learning/CourseDetail.tsx:81-163 | the page shows 11 lessons, 2 completed, progress 200/11 % |
| CourseDetail.AccordionFacts | ecoscene-ui/src/pages/learning/CourseDetail.tsx:144-146 | at most one module is open; opening one closes the rest, closing any closes all |
| CourseDetail.LessonIcon | ecoscene-ui/src/pages/learning/CourseDetail.tsx:148-155 | video, article and quiz get their own icon, every other type the play icon |
| Register.OptionFacts | ecoscene-ui/src/pages/auth/Register.tsx:25-27 | the gene-key menu offers exactly 1..64 in order; nine distinct "Type n" options |
| Register.StepAfterFacts | ecoscene-ui/src/pages/auth/Register.tsx:297-315 | a click moves the step by at most one and keeps it in 0..2 |
| Register.StepStaysInRange | ecoscene-ui/src/pages/auth/Register.tsx:297-315 | any run of clicks keeps the step in 0..2 |
| Register.NextReaches | ecoscene-ui/src/pages/auth/Register.tsx:61-63 | n presses of Next from a step reach that step plus n, up to the last step |
| Register.ContentFor | ecoscene-ui/src/pages/auth/Register.tsx:75-280 | a form is shown exactly for steps 0..2 |
| Register.Stepper.constructor | ecoscene-ui/src/pages/auth/Register.tsx:43 | the wizard starts at step 0 |
| Register.Stepper.HandleNext | ecoscene-ui/src/pages/auth/Register.tsx:61-63 | `handleNext` adds one to the step |
| Register.Stepper.HandleBack | ecoscene-ui/src/pages/auth/Register.tsx:65-67 | `handleBack` subtracts one |
| Register.Stepper.ClickBack | ecoscene-ui/src/pages/auth/Register.tsx:297-303 | Back is disabled at step 0; the step stays in range |
| Register.Stepper.ClickPrimary | ecoscene-ui/src/pages/auth/Register.tsx:306-314 | at the last step the button submits and keeps the step; before it, advances |
| Register.GeneKeysAfterChange | ecoscene-ui/src/pages/auth/Register.tsx:155-160 | a selection of more than three keys is ignored; at most three are kept |
| Register.GeneKeysAfterAll | ecoscene-ui/src/pages/auth/Register.tsx:155-160 | after any run of changes the keys are the start or one selection made, at most three |
| Register.InterestToggle | ecoscene-ui/src/pages/auth/Register.tsx:219-224 | an interest chip removes a selected interest and appends an unselected one; twice restores |
| Wallet.Rate | ecoscene-ui/src/pages/currency/Wallet.tsx:108-131 | each currency's USD rate is positive |
| Wallet.RatesAgreeWithSlice | ecoscene-ui/src/pages/currency/Wallet.tsx:108-131 | the page's rates are the slice's initial rates |
| Wallet.ExchangeAmount | ecoscene-ui/src/pages/currency/Wallet.tsx:202-207 | 0 for an empty amount; otherwise the result has the same USD value as the amount |
| Wallet.ExchangeFacts | ecoscene-ui/src/pages/currency/Wallet.tsx:202-207 | same-currency exchange is the identity; there and back restores; no 2% fee is taken |
| Wallet.UsdEstimate | ecoscene-ui/src/pages/currency/Wallet.tsx:261 | the estimate is the balance times the rate: non-negative for a non-negative balance |
| Wallet.PercentOfMax | ecoscene-ui/src/pages/currency/Wallet.tsx:237 | the bar is balance/5000·100, unclamped: in [0, 100] iff the balance is in [0, 5000] |
| Wallet.TabFacts | ecoscene-ui/src/pages/currency/Wallet.tsx:310-365 | tab 0 lists all; each currency tab lists exactly that currency's transactions, in order |
| Wallet.CoinTabsPartition | ecoscene-ui/src/pages/currency/Wallet.tsx:359-365 | the three currency tabs together list every transaction once |
| Wallet.Sign | ecoscene-ui/src/pages/currency/Wallet.tsx:334 | '+' exactly for receive and reward, '-' for the rest |
| Wallet.Counterparty | ecoscene-ui/src/pages/currency/Wallet.tsx:342-344 | "From:" the sender for incoming, "To:" the recipient otherwise |
| Wallet.IconFor | ecoscene-ui/src/pages/currency/Wallet.tsx:189-200 | send, receive and exchange have their own icon; the others the wallet icon |
| Wallet.Address | ecoscene-ui/src/pages/currency/Wallet.tsx:289 | the receiving address is `ecoscene:` followed by the user id |
| Wallet.HandleSend | ecoscene-ui/src/pages/currency/Wallet.tsx:171-175 | closes the send dialog and resets its form; nothing else changes |
| Wallet.HandleExchange | ecoscene-ui/src/pages/currency/Wallet.tsx:177-181 | closes the exchange dialog and resets its form; nothing else changes |
| Wallet.DialogsDiscardInput | ecoscene-ui/src/pages/currency/Wallet.tsx:171-181 | what was typed is discarded, and a second press changes nothing |
| GuildDetail.FindGuild | ecoscene-ui/src/pages/guilds/GuildDetail.tsx:98 | finds a catalogue guild with the route id, none for an absent or unknown id |
| GuildDetail.ResolveIdsFacts | ecoscene-ui/src/pages/guilds/GuildDetail.tsx:102-113 | one user per id, in order: the user with that id or the fallback user |
| GuildDetail.LeadershipFacts | ecoscene-ui/src/pages/guilds/GuildDetail.tsx:102-113 | managers and voting members follow the leadership lists, falling back to the first and second user |
| GuildDetail.GuildPostsFacts | ecoscene-ui/src/pages/guilds/GuildDetail.tsx:115-117 | exactly the posts tagged with the guild's name, in order; without a guild, the unguilded posts |
| GuildDetail.View | ecoscene-ui/src/pages/guilds/GuildDetail.tsx:119-124 | "Guild not found" exactly when the lookup fails |
| GuildDetail.ViewFacts | ecoscene-ui/src/pages/guilds/GuildDetail.tsx:98-124 | an unknown id is not found; a found guild has its leadership lists and only its posts |
| GuildDetail.JoinLeave | ecoscene-ui/src/pages/guilds/GuildDetail.tsx:131-133 | flips membership and nothing else |
| GuildDetail.JoinLabel | ecoscene-ui/src/pages/guilds/GuildDetail.tsx:259 | "Leave Guild" iff a member, else "Join Guild" |
| GuildDetail.SubmitPost | ecoscene-ui/src/pages/guilds/GuildDetail.tsx:143-146 | clears the content (so Post is disabled) and nothing else |
| GuildDetail.MembershipFacts | ecoscene-ui/src/pages/guilds/GuildDetail.tsx:261-294 | joining shows the composer and meeting button, leaving hides them; twice restores |
| GuildDetail.PostDisabledFacts | ecoscene-ui/src/pages/guilds/GuildDetail.tsx:324 | Post is disabled exactly while the content is white space only |
| Feed.FilteredPostsFacts | ecoscene-ui/src/pages/social/Feed.tsx:184-189 | tab 0 and tabs past 2 list all; "My Guilds" exactly posts of the user's guilds; "My Posts" exactly the user's |
| Feed.Body | ecoscene-ui/src/pages/social/Feed.tsx:201-210 | cards show exactly the filtered posts |
| Feed.EmptyStateIff | ecoscene-ui/src/pages/social/Feed.tsx:180-203 | with `loading` fixed at false, the empty state shows iff the tab lists no post |
| Feed.HandleReaction | ecoscene-ui/src/pages/social/Feed.tsx:55-57 | every reaction flips `liked` |
| Feed.ReactionFacts | ecoscene-ui/src/pages/social/Feed.tsx:55-57 | two reactions restore `liked`; the kind never matters |
| Feed.ParseTagsFacts | ecoscene-ui/src/pages/social/Feed.tsx:270 | one tag per comma-separated piece, each trimmed; no tag holds a comma |
| Feed.TrimKeepsOut | ecoscene-ui/src/pages/social/Feed.tsx:270 | trimming introduces no character |
| Feed.TrimOfPieces | ecoscene-ui/src/pages/social/Feed.tsx:270 | the tags are the split pieces, trimmed |
| Feed.DoubleCommaKept | ecoscene-ui/src/pages/social/Feed.tsx:270 | "a,,b" keeps an empty tag between |
| Feed.SplitDoubleComma | ecoscene-ui/src/pages/social/Feed.tsx:270 | "a,,b" splits into a, the empty piece, b |
| Feed.TagsOfThree | ecoscene-ui/src/pages/social/Feed.tsx:270 | three pieces give three trimmed tags |
| Feed.TrailingCommaKept | ecoscene-ui/src/pages/social/Feed.tsx:270 | a trailing comma gives an empty last tag |
| Feed.SplitNoSep | ecoscene-ui/src/pages/social/Feed.tsx:270 | a text without a comma is one piece |
| Feed.SplitAround | ecoscene-ui/src/pages/social/Feed.tsx:270 | splitting at the first comma gives the piece before it, then the rest's pieces |
| Feed.OnTagsInput | ecoscene-ui/src/pages/social/Feed.tsx:270 | typing replaces the tags by the parsed pieces; the rest of the draft is kept |
| Feed.OnDeleteTag | ecoscene-ui/src/pages/social/Feed.tsx:276 | deleting a chip keeps the content and type |
| Feed.DeleteTagFacts | ecoscene-ui/src/pages/social/Feed.tsx:274-278 | deleting chip i removes exactly that tag, the others kept in order |
| Profile.ProfileUser | ecoscene-ui/src/pages/social/Profile.tsx:60 | no or empty id shows the visitor; a known id that user; an unknown id the visitor |
| Profile.OwnProfileFacts | ecoscene-ui/src/pages/social/Profile.tsx:60-61 | own profile without an id or with one's own id; another known id is not one's own |
| Profile.UserPostsFacts | ecoscene-ui/src/pages/social/Profile.tsx:64 | exactly the profile user's posts, in order; the count is 0 iff none |
| Profile.InitialPage | ecoscene-ui/src/pages/social/Profile.tsx:55-69 | the edit form starts from the profile's bio and location |
| Profile.Buttons | ecoscene-ui/src/pages/social/Profile.tsx:131-155 | edit buttons iff own profile; Follow reads "Following" iff following |
| Profile.ToggleFollow | ecoscene-ui/src/pages/social/Profile.tsx:151 | flips `isFollowing` and nothing else |
| Profile.FollowFacts | ecoscene-ui/src/pages/social/Profile.tsx:131-155 | Follow is offered only on another's profile; each click flips the label; twice restores |
| Profile.SubmitEdit | ecoscene-ui/src/pages/social/Profile.tsx:75-78 | closes the dialog and nothing else |
| Profile.SubmitEditFacts | ecoscene-ui/src/pages/social/Profile.tsx:66-78 | saving changes nothing of the profile |
| Dashboard.Stats | ecoscene-ui/src/pages/Dashboard.tsx:46-51 | four cards; trees planted and guild count come from the user |
| Dashboard.StatsDependOnlyOnTwoFields | ecoscene-ui/src/pages/Dashboard.tsx:46-51 | users with equal tree and guild counts see the same cards |
| Dashboard.WalletBarsFacts | ecoscene-ui/src/pages/Dashboard.tsx:53-94 | three bars, each balance/5000·100, in [0, 100] iff the balance is in [0, 5000] |
| Dashboard.RecentActivity | ecoscene-ui/src/pages/Dashboard.tsx:111 | the first three posts |
| Dashboard.YourGuildsFacts | ecoscene-ui/src/pages/Dashboard.tsx:148 | exactly the catalogue guilds named in the user's guilds; the same list as the directory's "my guilds only" |
| Dashboard.SuggestedChips | ecoscene-ui/src/pages/Dashboard.tsx:228 | the first two of the user's guilds |
| Dashboard.SuggestedFacts | ecoscene-ui/src/pages/Dashboard.tsx:219 | every other user, in order |
| Dashboard.ViewFacts | ecoscene-ui/src/pages/Dashboard.tsx:44-56 | the dashboard describes the signed-in user, or the first fixture user |

## Left out

- Floating point is left out. Prices, balances and rates are exact `real`s,
  so `toFixed` rounding and binary representation error are not modelled.
  `Cart.SampleOrders` states exact values (e.g. 22.7302), where the page
  prints them rounded to two decimals.
- Number parsing is left out. `parseInt` and `parseFloat` are modelled by
  their results, as an `Option`: `None` for a text that is not a number.
  Form fields that hold a typed amount stay strings.
- Case folding is left out. `Text.Lower` lowercases ASCII letters only; it
  does no Unicode case mapping. `Text.IsSpace` covers ASCII white space,
  line terminators, NBSP and BOM, not every Unicode space.
- Rendering is left out: JSX layout, icons' looks, styles, routing and
  `navigate`. Where the page's choice matters it is a datatype
  (`Feed.FeedBody`, `Profile.HeaderButtons`, `Wallet.TxIcon`,
  `CourseDetail.Icon`).
- Browser APIs are left out: the clipboard copy and the "copied" timer on
  the wallet page, and `localStorage` on registration submit.
- Dates are left out. Timestamps are plain strings.
- Fixtures are parameters. The mock data (`mockUsers`, `mockPosts`,
  `mockProducts`, `mockGuilds`, `mockCourses`) are inputs, not constants.
  The fixture text of `data.ts` after the type declarations is not part of
  this model. The wallet's `mockTransactions` are an input too.
  Where the code falls back to `mockUsers[0]` or `mockUsers[1]`, an
  `Option` covers a list too short to have that user.
- Only the auth state's user is modelled. The auth slice is not part of
  this model; the signed-in user is an `Option<User>` (`Data.SignedInOr`).
- The route parameter is an `Option<string>`: `None` stands for
  `useParams()` without the parameter.
- Redux plumbing is left out: action creators, `configureStore` and
  `useSelector`. Each reducer is its store method.
- Tab state is left out. Tab indices are plain integers with no handler of
  their own; each `handleTabChange` only stores the index.
- Register.Stepper: `HandleNext` and `HandleBack` alone do not keep the
  step in range, as in the source. Only the button methods (`ClickBack`,
  `ClickPrimary`) preserve `Valid()`.
- Register's form fields are left out. Text fields other than the gene
  keys and interests only store what is typed.
- Courses.LessonCount (three lessons per module, on the card) has no
  contract; it is a display value.
- Feed loading is fixed. The page's `loading` is a state variable with no
  setter, fixed at `false`, so the spinner branch of `Feed.Body` is never
  reached from the page.

### Where the model follows the code rather than the prose description

- The level filter of the course catalogue compares with the wrong case.
  The code compares the capitalised menu value with the lowercase stored
  level; see Findings.
- The featured courses use rating `>= 4.5`. A comment says "> 4.5"; the
  code's `>=` is what `Courses.HighlyRated` uses.
- The wallet's exchange dialog announces a 2% fee, but `getExchangeAmount`
  deducts none. `Wallet.ExchangeFacts` states that the result differs from
  the 98% version for every non-zero amount.
- The reducers do not validate quantities. `updateCartQuantity` and
  `addToCart` accept any number; only the cart page's controls refuse
  values below 1 (`Cart.QuantityControlsKeepPositive`).
- An empty cart renders the empty-cart view. `Cart.EmptyCartTotals`
  describes the summary values, which that view does not display.
- On the guild page, with no guild found, `post.guild === guild?.name`
  selects the posts without a guild. The page renders "Guild not found"
  instead, so these posts are never shown.
- Bookmark ids are declared `number[]` but receive the course's string id
  at run time. The model uses strings.

## Findings

| source | as written | input that shows it | evidently intended | confidence | as-written member | corrected member |
|---|---|---|---|---|---|---|
| ecoscene-ui/src/pages/learning/Courses.tsx:71 | `course.level === selectedLevel` compares the menu value ("Beginner") with the stored level ("beginner") | any catalogue, level menu set to "Beginner": no course is listed | a course is listed when its level is the chosen one, whatever the letter case | high (not executed) | Courses.SpecificLevelHidesAll | Courses.LevelOptionSelects |
