# Property-dashboard core in Dafny

This project models the data logic behind a real-estate dashboard written in
React, and proves properties of that model. It covers four parts:

- **Market view** (`Market`, `Ranking`). Inventory units and community site
  plans are grouped under a normalised `"City, ST"` key, which stands in for a
  metropolitan statistical area (MSA). One metric row is built per area, and
  the rows are ranked by homes sold. Four top-10 lists rank the rows by homes,
  price increase, sales pace and new homes.
- **Acquisition view** (`Acquisition`). This covers four things:
  - the key figures of the current page, such as inventory, price per square
    foot and sales pace;
  - the four filter facets (cities, states, builders, zip codes);
  - where each pagination button leads;
  - which pagination buttons are disabled.
- **Property store** (`PropertyStore`). This is the shared state provider: five
  state cells, a paginated fetch of inventory, a one-off fetch of site plans,
  and the effects that trigger both.
- **Chat assistant** (`Chatbot`). A keyword lookup picks the canned reply.
  Sending a message appends it at once; the reply is appended one second
  later.

Two modules support the others:

- `Js` gives the JavaScript semantics the code depends on: truthiness of
  optional fields, `x || d`, `Math.round`, `toUpperCase`/`toLowerCase`,
  `trim` and `includes`.
- `Seqs` gives sequence helpers: `[...new Set(xs)]`, `reduce` sums and the
  mean.

`Array.prototype.sort` with a descending comparator is modelled as a stable
insertion sort, `Ranking.SortDesc`; the sort is stable since ES2019.
`Ranking.StableSortUnique` shows that any arrangement that is descending and
stable is exactly `SortDesc`, so which algorithm the engine uses does not
matter. The grouping loops and the in-place sort are imperative methods. Each
is proved equal to a specifying function: `Market.GroupMetros` equals
`Market.Groups`/`Market.Order`, and `Ranking.SortInPlace` equals `SortDesc`.
The lemmas are stated about those functions.

Three behaviours of the code are worth knowing when reading the model:

- The price increase is a random mock value, `Math.floor(Math.random() * 20) + 5`.
- An empty inventory page zeroes every key figure, sold inventory included, even
  when site plans exist.
- The source comment announces a "5-25%" increase. The formula yields 5 to 24
  (`Market.PriceIncreaseRange`).

## Model

| member | source | states |
|---|---|---|
| Js.IntOr | src/context/PropertyContext.jsx:26 | `n \|\| d`: the field's value when it is present and non-zero, `d` otherwise |
| Js.Upper | src/views/MarketView.jsx:27 | `toUpperCase` keeps the length, on ASCII letters |
| Js.Lower | src/components/chatboat.jsx:37 | `toLowerCase` keeps the length, on ASCII letters |
| Js.Trim | src/components/chatboat.jsx:12 | `trim` returns the slice of the text between a white-space prefix and a white-space suffix, and that slice neither starts nor ends with white space |
| Js.Round | src/views/MarketView.jsx:100 | `Math.round(x)`: the unique integer `r` with `r <= x + 0.5 < r + 1` |
| Js.RoundMonotone | src/views/AcquisitionView.jsx:35-38 | rounding never reverses the order of two values |
| Js.CaseRoundTrips | src/views/MarketView.jsx:24-27 | lower-casing after upper-casing is plain lower-casing, and the other way round |
| Js.TrimEmptyIffBlank | src/components/chatboat.jsx:12 | `!s.trim()` holds exactly when every character of `s` is JavaScript white space |
| Seqs.Dedup | src/views/AcquisitionView.jsx:73-78 | `[...new Set(xs)]` holds exactly the elements of `xs`, each once, and is no longer than `xs` |
| Seqs.DedupFirstOccurrenceOrder | src/views/AcquisitionView.jsx:73-78 | the distinct values are listed in the order of their first occurrences |
| Seqs.MeanBounds | src/views/MarketView.jsx:85-86 | the mean of a non-empty list whose values lie in [lo, hi] lies in [lo, hi] |
| Ranking.SortDesc | src/views/MarketView.jsx:105 | the sort keeps the number of rows; its order, permutation and stability are the lemmas below |
| Ranking.SortDescSorted | src/views/MarketView.jsx:105 | `sort((a, b) => key(b) - key(a))` leaves the keys in non-increasing order |
| Ranking.SortDescPermutation | src/views/MarketView.jsx:105 | the sort rearranges its input: same multiset of rows |
| Ranking.SortDescStable | src/views/MarketView.jsx:105 | rows with equal keys keep their relative order |
| Ranking.StableSortUnique | src/views/MarketView.jsx:105 | any descending, stable rearrangement of the input equals `SortDesc` |
| Ranking.SortDescOfSorted | src/views/MarketView.jsx:110 | sorting rows that are already descending returns them unchanged |
| Ranking.SortDescAgreeingKeys | src/views/MarketView.jsx:122-125 | two keys that agree on every row give the same order |
| Ranking.SortDescSum | src/views/MarketView.jsx:105 | sorting does not change the total of any metric over the rows |
| Ranking.SortDescDistinct | src/views/MarketView.jsx:105 | rows with pairwise distinct names still have pairwise distinct names after sorting |
| Ranking.Top10 | src/views/MarketView.jsx:109-130 | a top-10 list has `min(10, n)` rows in descending key order; every row comes from the input; no row left out has a larger key than a row kept; among rows with equal keys, the ones kept are the first in input order, in that order |
| Ranking.InsertInPlace | src/views/MarketView.jsx:105 | shifting one element into a sorted prefix of the array is a stable descending insertion; the rest of the array is untouched |
| Ranking.SortInPlace | src/views/MarketView.jsx:105 | sorting the array in place leaves exactly `SortDesc` of its old contents |
| Market.MetroKeyIgnoresCase | src/views/MarketView.jsx:24-27 | spellings of city and state that differ only in letter case give the same `"City, ST"` key |
| Market.AtlantaExample | src/views/MarketView.jsx:24-27 | `"ATLANTA"`/`"ga"` and `"atlanta"`/`"Ga"` both become `"Atlanta, GA"` |
| Market.Order | src/views/MarketView.jsx:29-37 | the keys of `msaGroups` in insertion order, none twice |
| Market.GroupOf | src/views/MarketView.jsx:29-44 | the group of a key carries that key as its name and never counts more prices than units |
| Market.AddProperty | src/views/MarketView.jsx:38-44 | pushing a unit adds one unit and at most one counted price, leaving name and site plans alone |
| Market.GroupsMeaning | src/views/MarketView.jsx:17-71 | after both passes, `msaGroups` holds one group per key that occurs (no other), and each group holds exactly its key's units and site plans, with the sum and count of their truthy prices |
| Market.PropertyStep | src/views/MarketView.jsx:21-46 | one iteration of the inventory pass keeps every group equal to what its key's records amount to |
| Market.GroupOfAddProperty | src/views/MarketView.jsx:38-44 | pushing a unit and counting its truthy price turns the group of the shorter input into the group of the longer one |
| Market.SitePlanStep | src/views/MarketView.jsx:51-70 | one iteration of the site-plan pass keeps every group equal to what its key's records amount to |
| Market.LookupIsGroupOf | src/views/MarketView.jsx:29-37 | a key not yet present starts from the empty group, which is what that key's records so far amount to |
| Market.OrderPropertyStep | src/views/MarketView.jsx:29-37 | a unit appends its key to the insertion order exactly when the key is new |
| Market.OrderSitePlanStep | src/views/MarketView.jsx:59-67 | a site plan appends its key to the insertion order exactly when the key is new |
| Market.PushProperty | src/views/MarketView.jsx:21-46 | the first `forEach` callback: updates the groups as `WithProperty`, and appends the key to the order exactly when it was absent |
| Market.PushSitePlan | src/views/MarketView.jsx:51-70 | the second `forEach` callback: updates the groups as `WithSitePlan`, and appends the key to the order exactly when it was absent |
| Market.GroupMetros | src/views/MarketView.jsx:17-71 | the two loops build exactly the groups `Groups` and the key order `Order` |
| Market.MetroOf | src/views/MarketView.jsx:76-101 | a row is named after its area, has sales pace equal to homes sold and new homes equal to the area's unit count, and an increase in 5..24 for a draw in [0, 1) |
| Market.RawMetrics | src/views/MarketView.jsx:76 | one row per key of `msaGroups` |
| Market.MsaData | src/views/MarketView.jsx:10-106 | one row per key of `msaGroups`, also on empty input |
| Market.ComputeMsaData | src/views/MarketView.jsx:10-106 | the memo (group, map to rows, sort in place) returns exactly `MsaData` |
| Market.RawMetricsOrder | src/views/MarketView.jsx:76 | before sorting, the rows follow the insertion order of their keys |
| Market.MsaDataSortsRaw | src/views/MarketView.jsx:14 | the early `[]` on empty input agrees with the general path |
| Market.MsaDataSorted | src/views/MarketView.jsx:105 | `msaData` is ranked by homes sold, highest first |
| Market.MsaDataStable | src/views/MarketView.jsx:105 | areas with equal homes sold keep the insertion order of their keys |
| Market.MsaDataNames | src/views/MarketView.jsx:17-76 | there is exactly one row per distinct key of either input, and no row for any other name |
| Market.SameRows | src/views/MarketView.jsx:105 | the ranked rows are the unranked rows rearranged |
| Market.MsaDataRows | src/views/MarketView.jsx:76-102 | each row: homes = sum of `Sold \|\| 0` over the area's site plans, sales pace = homes, new homes = the area's unit count, average price = rounded mean of the area's truthy prices (0 if none) |
| Market.PriceIncreaseRange | src/views/MarketView.jsx:89 | with every random draw in [0, 1), the mock increase lies in 5..24 |
| Market.PricesOfMembers | src/views/MarketView.jsx:41-43 | the prices counted for an area are prices of the whole inventory |
| Market.AveragePriceBounds | src/views/MarketView.jsx:85-86 | if every truthy price lies in [lo, hi], each priced area's average lies in [Round(lo), Round(hi)] |
| Market.MsaDataHomesTotal | src/views/MarketView.jsx:77-80 | homes sold summed over all rows equal `Sold \|\| 0` summed over all grouped site plans: nothing is lost or counted twice |
| Market.MsaDataNewHomesTotal | src/views/MarketView.jsx:99 | new homes summed over all rows equal the number of grouped inventory units |
| Market.KeySumsPartition | src/views/MarketView.jsx:77-80 | summing per key, over keys that cover each key once, is summing over all keyed records |
| Market.KeysCovered | src/views/MarketView.jsx:17-71 | the key order has no duplicates and contains every key of either input |
| Market.TopByHomesIsPrefix | src/views/MarketView.jsx:109-112 | the homes list is the first ten rows of `msaData` |
| Market.TopBySalesPaceIsTopByHomes | src/views/MarketView.jsx:122-125 | the sales-pace list equals the homes list, because sales pace equals homes on every row |
| Acquisition.PricesPerSqFt | src/views/AcquisitionView.jsx:29-31 | never longer than the page; empty exactly when no unit has a truthy price and a truthy area; every value is price / area of such a unit, and every such unit's ratio occurs |
| Acquisition.PricedIndices | src/views/AcquisitionView.jsx:29-30 | the positions of the units that pass the filter: each such unit once, in page order, and no other |
| Acquisition.PricesPerSqFtAt | src/views/AcquisitionView.jsx:29-31 | the ratios hold exactly one entry per priced unit, in page order: entry j is price / area of the j-th priced unit |
| Acquisition.PacePercent | src/views/AcquisitionView.jsx:53-56 | the nearest whole number to the exact percentage `100 sold / total`; 0 when the total is not positive |
| Acquisition.ComputeStats | src/views/AcquisitionView.jsx:13-69 | an empty page shows six zeros. Otherwise the inventory is the page size, homes sold equal sold inventory, and the increase is 0. A page without a priced unit shows an average of 0 |
| Acquisition.StatsOfPage | src/views/AcquisitionView.jsx:42-56 | on a non-empty page, sold inventory is the sum of `Sold \|\| 0` over all site plans. The pace equals the integer form `(200 sold + total) div (2 total)`, is 0 when the total is not positive, and lies in 0..100 when no more is sold than available |
| Acquisition.EmptyPageIsAllZero | src/views/AcquisitionView.jsx:14-23 | an empty page gives six zero figures whatever the site plans hold |
| Acquisition.EmptyPageHidesSales | src/views/AcquisitionView.jsx:14-23 | a site plan with 5 sold still shows 0 sold on an empty page |
| Acquisition.PaceIntegerForm | src/views/AcquisitionView.jsx:53-56 | with a positive total, the pace rounded on exact reals equals `(200 sold + total) div (2 total)` |
| Acquisition.PaceIsPercentage | src/views/AcquisitionView.jsx:53-56 | when 0 <= sold <= total, the pace lies in 0..100; a total that is not positive gives 0 whatever is sold |
| Acquisition.PaceExtremes | src/views/AcquisitionView.jsx:53-56 | everything sold gives 100, nothing sold gives 0 |
| Acquisition.AvgPricePerSqFtIsMean | src/views/AcquisitionView.jsx:29-39 | when some unit is priced, the average shown is the rounded mean of the priced units' ratios, each unit counted once |
| Acquisition.AvgPricePerSqFtBounds | src/views/AcquisitionView.jsx:29-39 | when some unit is priced and every priced unit's price / area lies in [lo, hi], the shown average lies in [Round(lo), Round(hi)] |
| Acquisition.SingleUnitExample | src/views/AcquisitionView.jsx:29-39 | one unit of 1500 sq ft at 300000 shows 200 per sq ft |
| Acquisition.Truthy | src/views/AcquisitionView.jsx:73 | `filter(Boolean)` never lengthens the list |
| Acquisition.TruthyMembers | src/views/AcquisitionView.jsx:73 | `filter(Boolean)` keeps exactly the present, non-empty values |
| Acquisition.TruthyOrder | src/views/AcquisitionView.jsx:73 | filtering keeps the order of first occurrences |
| Acquisition.Facet | src/views/AcquisitionView.jsx:73-78 | a facet has no duplicates, is no longer than the page, and holds exactly the present, non-empty values |
| Acquisition.FacetProperties | src/views/AcquisitionView.jsx:73-78 | a facet lists every present, non-empty value once, nothing else, in first-occurrence order; it is no longer than the page |
| Acquisition.ComputeFilterData | src/views/AcquisitionView.jsx:72-81 | the four lists have no duplicates and none is longer than the page |
| Acquisition.FilterDataFacets | src/views/AcquisitionView.jsx:72-81 | each of the four facets holds exactly the non-empty values its field takes on the page, without duplicates |
| Acquisition.Pagination | src/views/AcquisitionView.jsx:442-511 | the bar exists iff there is more than one page. Previous targets `max(1, page - 1)` and is disabled iff on page 1. Next targets `min(total, page + 1)` and is disabled iff on the last page. The numbered buttons are 1..min(5, total). A last-page button exists iff total > 5 |
| Acquisition.ControlsStayInRange | src/views/AcquisitionView.jsx:442-499 | from a page inside the range, every control leads inside the range, and Previous/Next move by at most one page |
| PropertyStore.PageProperties | src/context/PropertyContext.jsx:23-30 | the list the store keeps: the reply's list if present, otherwise (a missing list, no body, or a failure) `[]` |
| PropertyStore.PageTotal | src/context/PropertyContext.jsx:26-30 | the page count the store keeps: the reply's count when truthy, otherwise 1; never 0 |
| PropertyStore.ReceivedSitePlans | src/context/PropertyContext.jsx:38-42 | the site plans the store keeps: the reply's body, or `[]` when it is missing or the request failed |
| PropertyStore.Store.constructor | src/context/PropertyContext.jsx:8-12 | initial state: no units, no site plans, loading, page 1, one page |
| PropertyStore.Store.StartPageFetch | src/context/PropertyContext.jsx:17-22 | raises the loading flag and requests the given page with limit 10; nothing else changes |
| PropertyStore.Store.FinishPageFetch | src/context/PropertyContext.jsx:23-33 | stores `PageProperties` and `PageTotal` of the outcome and lowers the flag; site plans and page unchanged |
| PropertyStore.Store.FinishSitePlanFetch | src/context/PropertyContext.jsx:36-44 | stores `ReceivedSitePlans` of the outcome and touches no other cell |
| PropertyStore.Store.Mount | src/context/PropertyContext.jsx:46-52 | the first render requests the current page and raises the flag |
| PropertyStore.Store.SetPage | src/context/PropertyContext.jsx:46-48 | sets the page. It requests exactly that page, and raises the flag, only when the value changes |
| PropertyStore.Store.PressPrevious | src/views/AcquisitionView.jsx:445-446 | moves to the Previous target. It requests that page and raises the flag exactly when the page changes: never on page 1, page 1 from below it |
| PropertyStore.Store.PressNext | src/views/AcquisitionView.jsx:498-499 | moves to the Next target. It requests that page and raises the flag exactly when the page changes: never on the last page, the last page from beyond it |
| Chatbot.BotResponse | src/components/chatboat.jsx:36-47 | the reply is always one of the four canned texts |
| Chatbot.BotResponseChoice | src/components/chatboat.jsx:36-47 | exactly one of the four replies is chosen. Each is chosen iff its keywords occur in the lower-cased input and no keyword of higher priority does |
| Chatbot.TemplatesDiffer | src/components/chatboat.jsx:38-46 | the four replies are pairwise different texts |
| Chatbot.BotResponseIgnoresCase | src/components/chatboat.jsx:37 | upper-casing the input does not change the reply |
| Chatbot.KeywordInsideWord | src/components/chatboat.jsx:42-43 | a keyword counts even inside another word: `"curly"` gets the URL reply |
| Chatbot.MarketFirst | src/components/chatboat.jsx:38-39 | `"Property MARKET"` gets the market reply |
| Chatbot.NoKeyword | src/components/chatboat.jsx:44-45 | input without a keyword gets the general reply |
| Chatbot.IdsAreIndicesDistinct | src/components/chatboat.jsx:71 | ids equal to positions are pairwise distinct, as list keys must be |
| Chatbot.Chat.constructor | src/components/chatboat.jsx:5-8 | the chat starts with the greeting (id 1), an empty input and no pending reply |
| Chatbot.Chat.SetInput | src/components/chatboat.jsx:106 | typing replaces the input |
| Chatbot.Chat.SendMessage | src/components/chatboat.jsx:10-34 | blank input changes nothing. Otherwise it appends the user message with id `length + 1`, clears the input, and schedules a reply with id `length + 2` for the sent text |
| Chatbot.Chat.DeliverReply | src/components/chatboat.jsx:25-33 | the earliest timer fires: its reply text is `getBotResponse` of the captured input; its id is the one captured when sending |
| Chatbot.Chat.DeliverReplyRenumbered | src/components/chatboat.jsx:25-33 | corrected delivery: the reply is numbered `length + 1` when appended, which keeps ids equal to positions |
| Chatbot.Chat.SendMessageKeepsIds | src/components/chatboat.jsx:14-21 | sending keeps ids equal to positions and only extends the history |
| Chatbot.OverlappingSends | src/components/chatboat.jsx:14-33 | two sends less than a second apart give ids 1, 2, 3, 3, 4: a duplicate |
| Chatbot.OverlappingSendsRenumbered | src/components/chatboat.jsx:25-33 | the same two sends with corrected delivery give ids 1, 2, 3, 4, 5 |

## Left out

- The network: the page requests of `PropertyStore.Store` are returned to the caller. The site-plan request `GET /siteplans` is implicit in `Mount`, because it never varies. Each outcome is passed back as an argument, to `FinishPageFetch` or `FinishSitePlanFetch`. Timing is not modelled, and neither is concurrency.
- In-flight page requests racing each other: a slow early reply can overwrite a later one, and the first reply to end clears the loading flag. Two calls `StartPageFetch`/`FinishPageFetch` may be interleaved in any order, but no lemma covers these interleavings.
- A `res.data` that is not an array is not modelled: the site plans are typed as a list. A page body whose fields have other JSON types is not modelled either. In particular, `Sold` and `Total` are typed as optional integers, `Homesite Price` and the square footage as optional reals, and `City`, `State`, `Zipcode` and `MPC` as optional strings. In JavaScript a string `Sold` would be concatenated rather than added by `totalSold + (plan.Sold || 0)`; the model does not capture that.
- `Math.random()`: the `i`-th call made by the row mapping is the parameter `draw(i)`.
- The one-second `setTimeout`: each scheduled reply is a pending timer, and `Chatbot.Chat.DeliverReply` fires the earliest. All timers have the same delay, so they fire in the order they were scheduled.
- Timestamps (`new Date()`), `e.preventDefault()`, `console.log`/`console.error`, the `isOpen` guard, and all rendering and styling, including the highlighted current page and the open/closed state of the chat window.
- `totalHomes` in the market rows: it is computed and never used.
- `Js.Upper`, `Js.Lower`: only ASCII letters change case, while JavaScript maps the full Unicode range. `Js.CaseRoundTrips`, `Market.MetroKeyIgnoresCase` and `Chatbot.BotResponseIgnoresCase` hold for this ASCII mapping only. In JavaScript, "acquısıtıon" (dotless ı) gets the general reply, but its upper-cased form "ACQUISITION" gets the acquisition reply.
- Prices, areas and every quotient are exact reals, with no IEEE-754 rounding; `Math.round` is `floor(x + 0.5)` on the exact value.
- Acquisition.PacePercent: rounds the exact percentage, while the code rounds the double `sold / total * 100`. Next to .5 the two can differ by 1: for 23 of 40, the double is 57.49999999999999, so the code shows 57 and the model 58.
- Acquisition.PaceIntegerForm: holds for the exact-real pace of the model, not for the double-precision value of the code (see the line above).
- Input order in the market view: no lemma states that each area's homes, new homes and average price stay the same when either input list is reordered. Which rows tie, the order of tied rows, and which random draw each row receives do depend on the input order.
- `Acquisition.Pagination` does not model the `key={i}` of the numbered buttons or the `"..."` separator.
- Object key order of `msaGroups`: the model uses insertion order. JavaScript moves integer-like keys first, but a `"City, ST"` key always contains `", "`, so it is never integer-like.

## Findings

| source | as written | input that shows it | evidently intended | confidence | as-written member | corrected member |
|---|---|---|---|---|---|---|
| src/components/chatboat.jsx:27 | the reply's id is `messages.length + 2`, where `messages` is the list as it was when the user sent | send "hi", then send "market" within one second: the second user message and the first reply both get id 3, and the list renders two rows with `key` 3 | every message gets a distinct id, e.g. the position it is appended at | not executed; follows from the code as written | Chatbot.OverlappingSends | Chatbot.Chat.DeliverReplyRenumbered |
