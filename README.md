# Optimistic cart, delete counter and product search — a Dafny model

This project models the state logic of three demo widgets of a React 19
front-end for a sample product API:

- **The product list with an optimistic cart** (`Product.tsx`). The committed
  cart `actualCart` maps product ids to quantities. `useOptimistic` shows that
  cart with the pending updates applied, using a reducer that adds a signed
  quantity to one product. A click on "Add to cart" shows `+1` at once. When
  the simulated API resolves, the committed cart gains one of the product. If
  it rejected, a `-1` update would be issued instead.
- **The optimistic delete counter** (`useOptimisticExample.tsx`). The committed
  `actualCount` and a shown count go through a reducer that simply replaces the
  value. A click shows `count + 1` at once. A successful DELETE commits that
  value. A failed one shows the `actualCount` read when the handler started.
- **The transition demo's catalog** (`useTransitionExample.tsx`). The fetched
  products get string ids. They are replicated `multiplier` times, with the
  copy number appended to each id. The search box filters this list
  synchronously: the query is trimmed and lowercased; a blank query keeps
  every product; otherwise the filter keeps the products whose lowercased
  `"title category"` contains the query, in their original order.

`strings.dfy` holds the JavaScript string built-ins the catalog needs.
`cart.dfy`, `delete_counter.dfy` and `catalog.dfy` hold one module per source
file.

React's hooks are modelled explicitly. A `useState` slot is a field. A
`useOptimistic` slot is the committed value plus the sequence of optimistic
updates of the pending transition. The shown value is the committed value
with those updates folded through the reducer, oldest first. The end of the
transition, when React discards the optimistic updates, is a `Settle` step of
its own. The outcome of a network call is a `bool` parameter of the step that
consumes it. The buttons are disabled while their transition is pending, so
each `Click` requires that nothing is pending.

Two details of the cart reducer are easy to misread:

- The reducer does not clamp at zero: a `-1` update on an absent product gives
  an entry holding `-1` (`Cart.ApplyUpdate`).
- A revert restores every quantity as read with `get(id) || 0`, but a product
  that was absent comes back as an entry holding 0
  (`Cart.RevertRestoresQuantities`).

## Model

| member | source | states |
|---|---|---|
| `Cart.QuantityOf` | src/new-features/Product.tsx:32 | an id the cart holds reads as its entry; an absent id reads as 0, the default the source supplies after `get(id)` |
| `Cart.ApplyUpdate` | src/new-features/Product.tsx:27-35 | the reducer's result has an entry for every old product plus `productId`; `productId` holds its old quantity (0 when absent) plus `quantity`, unclamped; every other entry is unchanged |
| `Cart.Inverse` | src/new-features/Product.tsx:52 | the revert update names the same product with the opposite quantity |
| `Cart.CommitAdd` | src/new-features/Product.tsx:45-49 | the commit updater raises the product's quantity (default 0) by exactly one and leaves every other quantity alone; it builds the same map as the speculative `+1` update |
| `Cart.Fold` | src/new-features/Product.tsx:25-36 | the view of the committed cart through the pending updates keeps every committed product, and with nothing pending is the committed cart itself |
| `Cart.FoldAppend` | src/new-features/Product.tsx:25-36 | issuing one more optimistic update shows the reducer applied to what was shown before |
| `Cart.FoldMeaning` | src/new-features/Product.tsx:25-36 | the shown quantity of every product is its committed quantity plus the net pending change for it; the shown cart has entries exactly for the committed and the touched products |
| `Cart.RevertRestoresQuantities` | src/new-features/Product.tsx:31-52 | an update followed by its revert restores every product's quantity; the map comes back equal when the product was present and gains an entry holding 0 when it was absent |
| `Cart.SimulatedAddToCartApi` | src/new-features/Product.tsx:13-16 | the simulated API call always succeeds |
| `Cart.CartPage.IsPending` | src/new-features/Product.tsx:20 | when no transition is pending the page shows exactly the committed cart |
| `Cart.CartPage.OptimisticCart` | src/new-features/Product.tsx:25-26 | `optimisticCart` shows every committed product, and is the committed cart when nothing is pending |
| `Cart.CartPage.constructor` | src/new-features/Product.tsx:22-36 | the page starts with an empty committed cart, nothing pending, and an empty optimistic cart |
| `Cart.CartPage.Click` | src/new-features/Product.tsx:38-40 | a click shows the `+1` update on top of the committed cart at once and leaves the committed cart untouched |
| `Cart.CartPage.Resolve` | src/new-features/Product.tsx:42-53 | on success the committed cart becomes exactly the cart the click showed; on failure the committed cart is unchanged, the `-1` update is issued, and every shown quantity equals the committed one |
| `Cart.CartPage.Settle` | src/new-features/Product.tsx:80 | when the transition ends the page shows the committed cart again |
| `Cart.CartPage.AddToCart` | src/new-features/Product.tsx:38-55 | one whole add raises the product by one on success and changes nothing on failure; afterwards the shown cart is the committed cart |
| `Cart.CartPage.AddToCartSimulated` | src/new-features/Product.tsx:13-55 | against the simulated API every add commits: exactly one more of the product, every other quantity unchanged |
| `DeleteCounter.ReplaceCount` | src/new-features/useOptimisticExample.tsx:9 | the reducer returns the supplied value whatever the current count |
| `DeleteCounter.ShownCount` | src/new-features/useOptimisticExample.tsx:7-10 | the shown count is the committed count when nothing is pending and otherwise the last pending value |
| `DeleteCounter.DeletePage.IsPending` | src/new-features/useOptimisticExample.tsx:6 | when no transition is pending the page shows exactly the committed count |
| `DeleteCounter.DeletePage.OptimisticDeleteCount` | src/new-features/useOptimisticExample.tsx:7-10 | `optimisticDeleteCount` is the last value set in the pending transition, or the committed count when none is pending |
| `DeleteCounter.DeletePage.constructor` | src/new-features/useOptimisticExample.tsx:5-10 | the committed count starts at 0 and the shown count equals it |
| `DeleteCounter.DeletePage.Click` | src/new-features/useOptimisticExample.tsx:13-14 | a click computes `newCount` as the shown count plus one, shows it at once, and leaves the committed count unchanged |
| `DeleteCounter.DeletePage.Resolve` | src/new-features/useOptimisticExample.tsx:16-22 | on success the committed count becomes the `newCount` that was shown, one more than before; on failure the committed count is unchanged and the shown count is the committed count read when the handler started |
| `DeleteCounter.DeletePage.Settle` | src/new-features/useOptimisticExample.tsx:30 | when the transition ends the shown count is the committed count |
| `DeleteCounter.DeletePage.DeleteProduct` | src/new-features/useOptimisticExample.tsx:12-23 | one whole delete raises the committed count by exactly one on success and leaves it unchanged on failure |
| `Strings.NatToDecimal` | src/new-features/useTransitionExample.tsx:35 | the copy number is written as a non-empty string of digits without a leading zero |
| `Strings.DecimalRoundTrip` | src/new-features/useTransitionExample.tsx:35 | reading back the digits of a number gives the number |
| `Strings.NatToDecimalInjective` | src/new-features/useTransitionExample.tsx:35 | different copy numbers get different numerals |
| `Strings.IntToDecimal` | src/new-features/useTransitionExample.tsx:104 | `String(id)` starts with a minus sign exactly for negative ids; after the sign come one or more digits with no leading zero, and no other minus sign |
| `Strings.IntDecimalRoundTrip` | src/new-features/useTransitionExample.tsx:104 | reading back `String(id)` gives the id |
| `Strings.IntToDecimalInjective` | src/new-features/useTransitionExample.tsx:104 | different numeric ids get different string ids |
| `Strings.WhiteRunEnd` | src/new-features/useTransitionExample.tsx:247 | the run of white space starting at `i` ends at the result: everything before it is white space and the character at it is not |
| `Strings.WhiteRunStart` | src/new-features/useTransitionExample.tsx:247 | the run of white space ending just before `j` starts at the result: everything from it on is white space and the character before it is not |
| `Strings.Trim` | src/new-features/useTransitionExample.tsx:247 | the trimmed query is the slice `s[a..b]` of the input with only white space before `a` and after `b`; it neither starts nor ends with white space, and is empty exactly when the input is all white space |
| `Strings.LowerChar` | src/new-features/useTransitionExample.tsx:247 | an ASCII capital becomes its lower-case letter; every other character is kept |
| `Strings.ToLower` | src/new-features/useTransitionExample.tsx:254 | lowercasing keeps the length and maps every character by `LowerChar` |
| `Strings.LowerCharWhitespace` | src/new-features/useTransitionExample.tsx:247 | lowercasing a character never changes whether it is white space |
| `Strings.ToLowerKeepsWhitespace` | src/new-features/useTransitionExample.tsx:247 | lowercasing a string keeps the white-space status of every character |
| `Strings.ToLowerConcat` | src/new-features/useTransitionExample.tsx:254 | lowercasing a joined string is joining the lowercased parts |
| `Strings.Includes` | src/new-features/useTransitionExample.tsx:255 | `includes` holds exactly when the needle occurs at some position of the haystack |
| `Catalog.NormalizeProduct` | src/new-features/useTransitionExample.tsx:103-110 | one normalised product has as id `String(id)`, the standard decimal numeral of the numeric id, which reads back to it; the other five fields are copied |
| `Catalog.NormalizeProducts` | src/new-features/useTransitionExample.tsx:103-110 | normalisation keeps the length and order, writes each numeric id as its decimal string (which reads back to the id), and copies title, price, category, description and image |
| `Catalog.NormalizedIdsDistinct` | src/new-features/useTransitionExample.tsx:103-104 | distinct numeric ids stay distinct after normalisation |
| `Catalog.CopyId` | src/new-features/useTransitionExample.tsx:35 | a copy's id is the original id, then a dash, then the decimal numeral of the copy number |
| `Catalog.CopyOf` | src/new-features/useTransitionExample.tsx:33-36 | a copy has the suffixed id and every other field of the original |
| `Catalog.Copies` | src/new-features/useTransitionExample.tsx:33-36 | `Array.from` yields `multiplier` entries, entry `k` being copy `k` |
| `Catalog.FlatCopies` | src/new-features/useTransitionExample.tsx:32-37 | the `flatMap` is empty exactly when the source is empty or the multiplier is 0 |
| `Catalog.FlatCopiesLength` | src/new-features/useTransitionExample.tsx:32-37 | the `flatMap` has `multiplier` entries per source product |
| `Catalog.CreateExpandedDataset` | src/new-features/useTransitionExample.tsx:27-30 | an empty source expands to an empty list, for any multiplier |
| `Catalog.ExpandedLength` | src/new-features/useTransitionExample.tsx:32-37 | the expanded list has `multiplier` entries per source product |
| `Catalog.ExpandedAt` | src/new-features/useTransitionExample.tsx:32-37 | copy `k` of `source[i]` sits at position `i * multiplier + k` and equals `source[i]` except that its id is `source[i].id + "-" + k`; so copies are grouped in source order with ascending suffixes |
| `Catalog.ExpandedOrigin` | src/new-features/useTransitionExample.tsx:32-37 | every position `j` of the expanded list holds copy `k` of some `source[i]` with `j == i * multiplier + k` |
| `Catalog.CopyIdInjective` | src/new-features/useTransitionExample.tsx:35 | a suffixed id determines both the original id and the copy number |
| `Catalog.ExpandedIdsDistinct` | src/new-features/useTransitionExample.tsx:35 | if the source ids are distinct, so are the ids of the expanded list, which the grid uses as React keys |
| `Catalog.PageDatasetIdsDistinct` | src/new-features/useTransitionExample.tsx:219-222 | the page's dataset, normalised and expanded by 170, has 170 entries per fetched product and distinct ids when the fetched ids are distinct |
| `Catalog.NormalizeQuery` | src/new-features/useTransitionExample.tsx:247 | the normalised query is the lowercased slice of the input with only white space outside it; it neither starts nor ends with white space, so all leading and trailing white space is removed; it is empty exactly when the input is all white space |
| `Catalog.Haystack` | src/new-features/useTransitionExample.tsx:254 | the lowercased `"title category"` string a product is searched in; `Catalog.HaystackParts` states that it is the lowercased title, a space, and the lowercased category |
| `Catalog.Matches` | src/new-features/useTransitionExample.tsx:254-255 | a product matches exactly when the query occurs at some position of its haystack |
| `Catalog.HaystackParts` | src/new-features/useTransitionExample.tsx:254 | the haystack is the lowercased title, a space, and the lowercased category |
| `Catalog.KeepMatching` | src/new-features/useTransitionExample.tsx:253-256 | the filter keeps an order-preserving subsequence; a product is kept exactly when it occurs in the input and its lowercased "title category" contains the query; each matching product is kept as often as it occurs, and no other product is kept |
| `Catalog.FilterProducts` | src/new-features/useTransitionExample.tsx:249-258 | a blank query shows the whole list; otherwise the shown list is the filtered list; either way it is a subsequence of the full list and no longer than it |
| `Catalog.BlankQueryKeepsAll` | src/new-features/useTransitionExample.tsx:250-251 | an all-white-space query keeps every product |
| `Catalog.ShownIffMatches` | src/new-features/useTransitionExample.tsx:253-257 | for a non-blank query a product is shown exactly when it is in the list and matches the normalised query |
| `Catalog.SubsequenceShorter` | src/new-features/useTransitionExample.tsx:319-320 | a subsequence is never longer than the list it is taken from, so the shown count never exceeds the total |
| `Catalog.SearchPanel.TotalCount` | src/new-features/useTransitionExample.tsx:320 | `totalCount` is never less than the length of the shown list |
| `Catalog.SearchPanel.constructor` | src/new-features/useTransitionExample.tsx:219-227 | once the products have loaded the expanded list is the source expanded by 170 and the shown list is all of it |
| `Catalog.SearchPanel.HandleSearchChange` | src/new-features/useTransitionExample.tsx:229-261 | after a search change the search term is the input, the pending flag is false, the shown list is the filtered list for the input, and the shown count is at most the total count |

## Left out

- Network I/O: `fetch`, `axios.delete` and the timer inside `addToCartAPI` are not modelled. A request's outcome is a `bool` parameter. The `console.error` logging of a failed add is left out too.
- The fetch of the product list (`useFetchedProducts`), its loading and error flags and its `isMounted` guard are not modelled. `SearchPanel`'s constructor takes the loaded products.
- React scheduling is left out. This covers `useTransition`, `Suspense`, `use(promise)`, and the order in which React renders state set after an `await`. Between `Resolve(true)` and `Settle` the model shows the pending `+1` on top of the new committed cart, as `useOptimistic` rebases. The model keeps this intermediate state; whether React renders it is not modelled.
- The `useEffect` that re-syncs the filtered lists when the products change is not modelled. The products are fixed once `SearchPanel` is built, and its constructor starts the shown list in the state that effect produces.
- Strings.LowerChar: only ASCII capitals `A`–`Z` are mapped to lower case; every other character is kept, so JavaScript's Unicode case mapping is not modelled.
- Strings.ToLower: only ASCII capitals are lowercased. JavaScript's full Unicode case mapping is not modelled, so non-ASCII titles and queries are compared as written.
- Strings.IntToDecimal: only integer ids are modelled. `String(n)` for fractional numbers, for numbers of 10^21 or more (exponent notation) and for `NaN` is not.
- Catalog.CreateExpandedDataset: the multiplier is a natural number. A negative or fractional `length` passed to `Array.from` is not modelled.
- Numbers are unbounded: JavaScript's quantities, counts and ids are float64 values, while the model uses `int`. The two agree for integers of magnitude below 2^53.
- Characters are Unicode scalar values: JavaScript strings are sequences of UTF-16 code units, while a Dafny `char` is a scalar value. A character outside the Basic Multilingual Plane is one `char` here, but two code units in JavaScript. For well-formed strings this changes neither whether `includes` finds the query nor what `trim` removes; only the lengths differ.
- Prices are `real` values that are only copied. Currency formatting (`Intl.NumberFormat`, `toFixed`) is left out, as is all markup, CSS and routing.
- `ActionStateExample.tsx`, `Navigation.tsx`, `Home.tsx`, the routes and `App.tsx` are not part of this model. They hold UI wiring, requests, one path comparison and two demo counters (`productsImage.tsx:35` and `product.$productId.tsx:93-103`), none of which touch the modelled state.
- The commented-out transition filter and `requestIdleCallback` code in `useTransitionExample.tsx` are dead code and are not modelled.
- Concurrent clicks are not modelled: the buttons are disabled while a transition is pending, so `Click` requires that nothing is pending.
