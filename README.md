# arbicart grocery price comparison, modelled in Dafny

arbicart compares what the same grocery basket costs across the ZIP codes
around Ithaca, NY. The page takes a basket (a preset or custom items) and a
home ZIP, then asks the server for `GET /api/prices?items=...&zip=...`. The
server answers with one entry per ZIP: location, store, per-item prices and
a basket total. The page then pins every ZIP on a map, colouring the home
ZIP and the cheapest ZIP, and shows a savings card. Prices come from one of
three sources:

- a deterministic mock (a base price per item, scaled per ZIP and
  jittered by a character hash);
- two live search clients (a scraper actor and the Instacart developer
  platform);
- a pre-scraped file, built offline by a scrape script and trimmed to five
  basic items by a build script.

The model covers these parts, one Dafny module each:

- the TTL cache (`TtlCache`, a class over a `map`);
- the mock source (`Mock`);
- the price route handler (`PricesRoute`, with `StringSort` for
  `items.sort()`);
- the two search clients (`Actor`, `Apify`, `Instacart`);
- the scrape and build scripts (`Scrape`, `BuildStatic`);
- the page's basket (`Basket`, a class);
- the savings card (`Savings`);
- the price pins (`PriceMap`, a class holding the marker state).

Shared modules model the JavaScript semantics the code relies on:

- `JsObject`: objects as property lists in ECMAScript's
  OrdinaryOwnPropertyKeys order (section 10.1.11.1 of ECMA-262).
  Integer-like keys such as five-digit ZIPs come first, ascending; the
  other keys follow in insertion order.
- `JsString`: `trim`, `toLowerCase`, `split` and `join`.
- `JsNumber`: `parseFloat`, `Math.round(x * 100) / 100` and sums.
- `Snapshot`: the per-ZIP entry and the cheapest-ZIP scan.
- `Seqs`: generic list helpers.

Prices are exact reals. NaN is `None`. Every clock reading, network reply
and file the code reads is a parameter of the operation that uses it.

Where the code deviates from its evident intent, the model has both
versions (see Findings). Two of these deviations decide observable output:

- `plotPrices` gives the home pin to the first enumerated ZIP. Because ZIP
  keys enumerate in ascending order, that is always 13045, the lowest ZIP,
  so every home ZIP other than 13045 loses its home pin.
- The route's textual cache key is ambiguous.

For each of these the handler and the map component are modelled twice. One
version follows the code as written; the other uses the corrected definition.

## Model

| member | source | states |
|---|---|---|
| TtlCache.Cache.constructor | server/cache.js:9-11 | a new cache holds no entries |
| TtlCache.Cache.Get | server/cache.js:16-24 | returns the stored value while now <= expiry; returns null for a missing or stale key; deletes exactly a stale entry and leaves the rest of the store alone |
| TtlCache.Cache.Set | server/cache.js:29-34 | replaces the key's entry with the value and expiry now + ttl; the default ttl is 15 minutes |
| TtlCache.Cache.Has | server/cache.js:39-41 | true exactly when get would return a non-null value, with get's eviction |
| TtlCache.ReadAfterSet | server/cache.js:19-23 | after set at t, get returns the value at every instant up to t + ttl and null after |
| TtlCache.SetKeepsOthers | server/cache.js:29-34 | set leaves every other key's reads and presence unchanged |
| TtlCache.StaleReadEvicts | server/cache.js:19-22 | reading a stale entry answers null and removes exactly that key |
| TtlCache.ReadChangesOnlyStale | server/cache.js:16-24 | a read leaves the store unchanged if and only if the key is missing or live |
| TtlCache.StoredNullIsAbsent | server/cache.js:39-41 | a stored null reads as absent, so has reports false |
| TtlCache.StaleStaysStale | server/cache.js:19 | once stale, an entry reads as null at every later instant |
| Mock.Hash | server/services/mock.js:134 | the jitter hash, taken over UTF-16 code units as `charCodeAt` reads them, lies in 0..99 |
| Mock.FirstCodeUnit | server/services/mock.js:134 | `charCodeAt(0)` of a character: the character itself below U+10000, else its high surrogate in D800..DBFF |
| Mock.LastCodeUnit | server/services/mock.js:134 | `charCodeAt(length - 1)` of a character: the character itself below U+10000, else its low surrogate in DC00..DFFF |
| Mock.HashAstral | server/services/mock.js:134 | a seed starting with an astral character hashes its high surrogate: "\u{1F34E}14850" gives 84 |
| Mock.FactorBounds | server/services/mock.js:135 | the jitter factor lies between 0.95 and 1.049 |
| Mock.SeedHash | server/services/mock.js:134 | the seed key + zip hashes only the key's first character (the ZIP's when the key is empty) and the ZIP's last character |
| Mock.BaseForSpec | server/services/mock.js:151 | a listed item gets its table price; any other item gets 3.99 |
| Mock.SameKeySamePrice | server/services/mock.js:150-152 | names that differ only in case and surrounding white space get the same price |
| Mock.GetPricesForZip | server/services/mock.js:142-168 | null exactly for a ZIP outside the table; otherwise the entry built by the item loop |
| Mock.MockItemsSpec | server/services/mock.js:149-157 | in a known ZIP the items object has exactly the requested names as keys, each priced at its mock price with the ZIP's store |
| Mock.MockEntryFields | server/services/mock.js:160-166 | location and median income come from the ZIP table; the total is the rounded sum of every requested item's price |
| Mock.MockTotalMatchesListedPrices | server/services/mock.js:149-166 | for distinct, non-numeric names the total is the rounded sum of the listed prices |
| Mock.RepeatedItemChargedTwice | server/services/mock.js:149-158 | a repeated item is listed once but counted twice in the total |
| Mock.RepeatedListedOnce | server/services/mock.js:153-157 | setting the same key twice leaves one entry while the running sum counts both |
| Mock.PricedObjectSpec | server/services/mock.js:149-157 | the priced object is well formed, has one entry per distinct name, and each entry holds that name's price and store |
| Mock.PricedObjectInOrder | server/services/mock.js:149-157 | with distinct, non-numeric names the object lists the items in request order |
| Mock.ItemPricesConsistent | server/services/mock.js:150-152 | equal names get equal prices in one ZIP |
| Mock.AllZipsSpec | server/services/mock.js:170-172 | getAllZips lists every table ZIP exactly once, in ascending numeric order |
| Mock.KnownZipHasStore | server/services/mock.js:44-55 | every table ZIP has a named store, so the 'Local Grocery' fallback is never used for one |
| Mock.OtherZipsStart14 | server/services/mock.js:59-130 | every table ZIP except 13045 is a five-digit numeral starting with 14 |
| StringSort.Sort | server/routes/prices.js:32 | the result is sorted and a permutation of the input |
| StringSort.SortedUnique | server/routes/prices.js:32 | two sorted permutations of the same list are equal |
| StringSort.SortPermutationInvariant | server/routes/prices.js:32 | lists holding the same items sort to the same list |
| JsString.TrimSpec | server/routes/prices.js:24 | the result has no white space at either end |
| JsString.Split | server/routes/prices.js:23 | the pieces contain no separator |
| JsString.JoinSplit | server/routes/prices.js:23 | joining the pieces of a split with the separator gives back the string |
| JsString.SplitJoin | server/routes/prices.js:23 | splitting a join of separator-free pieces gives back the pieces |
| JsString.LowerTrimCommute | server/services/mock.js:150 | lower-casing and trimming commute |
| JsString.CleanIdempotent | client/js/basket.js:43 | cleaning an already cleaned name changes nothing |
| JsString.KeepNumeric | server/services/apify.js:23 | only digits and dots remain, and the result is no longer than the input |
| JsString.KeepNumericChar | server/services/apify.js:23 | a single character is kept exactly when it is a digit or a dot |
| JsString.KeepNumericAppend | server/services/apify.js:23 | stripping distributes over concatenation, so every digit and dot is kept in order |
| JsNumber.ParseFloatNonNegative | server/services/apify.js:23 | a string without a minus sign never parses to a negative number |
| JsNumber.KeepNumericParse | server/services/apify.js:23 | the stripped price text parses to a non-negative number or NaN |
| JsNumber.Round2Close | server/services/mock.js:136 | rounding to cents moves a value by at most half a cent |
| JsNumber.Round2Monotone | server/services/mock.js:136 | rounding to cents preserves order |
| JsNumber.Round2Cents | server/services/mock.js:166 | a whole number of cents is left as it is |
| JsNumber.Round2Idempotent | server/services/mock.js:166 | rounding a rounded value changes nothing |
| JsNumber.SumAppend | server/services/mock.js:157 | the sum of two lists joined is the sum of their sums |
| JsObject.PutGet | server/routes/prices.js:47 | after o[k] = v, reading o[k] gives v |
| JsObject.PutGetOther | server/routes/prices.js:47 | o[k] = v leaves every other key's value unchanged |
| JsObject.PutKeys | server/routes/prices.js:47 | after o[k] = v the keys are the old keys plus k |
| JsObject.PutValid | server/routes/prices.js:47 | assignment keeps distinct keys and the enumeration order |
| JsObject.PutAppends | server/services/mock.js:153 | assigning a new non-numeric key appends it at the end |
| JsObject.PutExisting | server/services/mock.js:153 | assigning an existing key replaces the value in place |
| JsObject.IndexKeysAscending | server/services/mock.js:171 | integer-like keys enumerate in ascending numeric order |
| JsObject.FilterValid | scripts/scrape.js:146-153 | filtering an object's entries keeps distinct keys in enumeration order |
| PricesRoute.ParseItemsWellFormed | server/routes/prices.js:22-25 | every parsed item is non-empty, has no white space at either end and contains no comma |
| PricesRoute.ParseItemsJoin | server/routes/prices.js:22-25 | a comma-joined list of such items is read back exactly |
| PricesRoute.TrimEach | server/routes/prices.js:24 | each piece is trimmed, position by position |
| PricesRoute.DropEmpty | server/routes/prices.js:25 | exactly the non-empty pieces remain, each as often as it occurred |
| PricesRoute.DropEmptyAppend | server/routes/prices.js:25 | filtering distributes over concatenation, so the order of the pieces is kept |
| PricesRoute.CacheKeyTextPermutation | server/routes/prices.js:32 | reordering the items does not change the textual key |
| PricesRoute.CacheKeyTextCollides | server/routes/prices.js:32 | two different requests share one textual key |
| PricesRoute.KeyOfIdentifiesRequest | server/routes/prices.js:32 | two requests share a key exactly when they have the same home ZIP and the same items in any order |
| PricesRoute.Without | server/routes/prices.js:42 | exactly the other ZIPs remain |
| PricesRoute.ZipOrderSpec | server/routes/prices.js:42 | the home ZIP comes first and only there; the rest are the known ZIPs |
| PricesRoute.CollectSpec | server/routes/prices.js:44-49 | pricesByZip holds exactly the ZIPs with a non-null result, each mapped to that result |
| PricesRoute.CollectPricesByZip | server/routes/prices.js:42-49 | the loop builds that object |
| PricesRoute.FreshResponseSpec | server/routes/prices.js:32-56 | a fresh response lists the items sorted and prices exactly the known ZIPs, so an unknown home ZIP is absent |
| PricesRoute.ParseRequest | server/routes/prices.js:20-29 | a non-string items parameter gives 500; an empty item list gives 400; otherwise the home ZIP (14850 by default) and the parsed items |
| PricesRoute.Serve | server/routes/prices.js:32-59 | a live cached response is returned as it is; otherwise the fresh response is returned and cached for 15 minutes under the given key |
| PricesRoute.HandleGet | server/routes/prices.js:18-65 | as written, keyed by the textual cache key: the parse errors leave the cache untouched, and an accepted request is served under its text key |
| PricesRoute.HandleGetKeyed | server/routes/prices.js:18-65 | the same handler keyed by the request itself (home ZIP and sorted items) |
| PricesRoute.CollidingRequestAnsweredFromCache | server/routes/prices.js:32-35 | as written, after zip "14850:x" with "milk" is cached, the request for zip "14850" with "x:milk" is answered with that cached response |
| PricesRoute.CollidingResponsesDiffer | server/routes/prices.js:32-56 | the two colliding requests have different fresh responses |
| PricesRoute.KeyedRequestsKeptApart | server/routes/prices.js:32-35 | keyed by the request, caching the first leaves the second's lookup unchanged |
| Actor.Or | server/services/apify.js:79 | a truthy field wins, otherwise the fallback |
| Actor.ParsePriceText | server/services/apify.js:23 | a parsed price is never negative |
| Actor.UnitOf | server/services/apify.js:81 | the pricing unit string when truthy, else the size when truthy, else "each"; never empty |
| Actor.StoreOf | server/services/apify.js:82 | the retailer name when truthy, else the store when truthy, else "Instacart"; never empty |
| Actor.ImageOf | server/services/apify.js:83 | an image exactly when the record's image URL is truthy |
| Apify.ExtractPrice | server/services/apify.js:20-34 | the extracted price is never negative |
| Apify.ExtractPriceSources | server/services/apify.js:20-34 | the top-level string wins if it parses, then the nested one, else 0 |
| Apify.ExtractPriceDropsSign | server/services/apify.js:23 | the sign is stripped, so "-3" reads as 3 |
| Apify.Normalize | server/services/apify.js:78-84 | name, unit and store are never empty and the price is never negative |
| Apify.NormalizeFallbacks | server/services/apify.js:81-82 | the unit falls back from the pricing unit to the size to "each", the store from the retailer name to the store to "Instacart" |
| Apify.NormalizeAllSpec | server/services/apify.js:78 | a non-array dataset gives nothing; an array gives one product per record, in order |
| Apify.SearchSingle | server/services/apify.js:59-84 | a search rejects exactly when its run failed |
| Apify.TopOfSpec | server/services/apify.js:106-114 | a search contributes exactly when it fulfilled with a non-empty list, and then contributes its first record |
| Apify.TopResultsSpec | server/services/apify.js:103-115 | at most one product per search; every product collected is some search's top product, and every such product is collected |
| Apify.FailureIsolated | server/services/apify.js:106-114 | a rejected search removes only its own product |
| Apify.BatchesCover | server/services/apify.js:103-105 | the batches hold 1 to 3 items each and together are the items in order; batch k starts at item 3k |
| Apify.CollectBatch | server/services/apify.js:104-114 | one batch adds the top products of its searches |
| Apify.SearchProducts | server/services/apify.js:96-122 | throws without a token; throws when no search produced a product; otherwise returns the collected products |
| Instacart.ListingOf | server/services/instacart.js:52-58 | unit and store are never empty |
| Instacart.ListingFallbacks | server/services/instacart.js:52-58 | name, unit (unit then size then "each"), store (retailer then store then "Instacart") and image (image URL then thumbnail then none) each take the first truthy candidate; the price is the price, else the unit price when the price is falsy |
| Instacart.Candidates | server/services/instacart.js:50 | at most three products per reply |
| Instacart.CandidateSources | server/services/instacart.js:42-50 | a failed reply gives nothing, and an empty products array hides items |
| Instacart.CollectedBound | server/services/instacart.js:26-63 | at most three records per item |
| Instacart.FailureIsolated | server/services/instacart.js:26-63 | a failed search for one item removes only that item's records |
| Instacart.AppendListings | server/services/instacart.js:51-59 | appends one reply's records in order |
| Instacart.SearchProducts | server/services/instacart.js:19-70 | throws without a key; throws when nothing was collected; otherwise returns every record in item order |
| Scrape.ExtractPrice | scripts/scrape.js:48-62 | the price is 0 or positive |
| Scrape.ExtractPriceAgrees | scripts/scrape.js:48-58 | wherever the server's extraction finds a positive price, the script finds the same one |
| Scrape.ExtractPriceOrder | scripts/scrape.js:48-62 | a positive top-level price wins; else a positive nested price; else a positive plain number; else 0 |
| Scrape.NumericPriceOnlyHere | scripts/scrape.js:59-60 | for every record whose price is a plain number, the server reads only the top-level string (or 0) while the script falls back to the number |
| Scrape.ZeroTopDiffers | scripts/scrape.js:49-57 | a top-level price of 0 stops the server's search but not the script's, which goes on to a positive nested price |
| Scrape.ScrapedOf | scripts/scrape.js:91-98 | the saved record keeps the search term, the extracted price and the image; the name falls back to the item, the store and unit follow the server's fallback chains |
| Scrape.FirstPricedSpec | scripts/scrape.js:88-101 | null exactly when no product has a positive price; otherwise the first such product |
| Scrape.ScrapeItem | scripts/scrape.js:65-102 | rejected on a failed run, else the first positively priced product |
| Scrape.AccumulateSpec | scripts/scrape.js:112-127 | the items object lists exactly the items found with a positive price, each with its record |
| Scrape.AccumulateTotal | scripts/scrape.js:112-127 | every listed price is positive and the running total is their sum |
| Scrape.AccumulateStore | scripts/scrape.js:112-127 | the store is that of the last item recorded, or "Instacart" when none was |
| Scrape.ScrapedEntrySpec | scripts/scrape.js:129-137 | the record lists only items of the list, totals them rounded, and counts them |
| Scrape.ScrapeZip | scripts/scrape.js:105-138 | builds that record by the loop over the items |
| Scrape.ToScrape | scripts/scrape.js:146-153 | keeps exactly the table entries that are not skipped |
| Scrape.ToScrapeSpec | scripts/scrape.js:146-153 | a ZIP is scraped exactly when its saved entry is missing or lists fewer than 3 items, keeping its table entry |
| Scrape.MergedSpec | scripts/scrape.js:161-165 | each scraped ZIP holds its new record, every other ZIP keeps its saved record, and the keys are the union |
| Scrape.MergedByKey | scripts/scrape.js:161-165 | each scraped ZIP holds the record scraped with its table entry |
| Scrape.Dedupe | scripts/scrape.js:173 | each element once, with no element lost |
| Scrape.DedupePrefix | scripts/scrape.js:173 | the saved searched items stay first, in their order |
| Scrape.DedupeDistinct | scripts/scrape.js:173 | a list without repeats is left as it is |
| Scrape.ScrapeOutputSpec | scripts/scrape.js:141-176 | a table ZIP is scraped exactly when its saved entry is missing or lists fewer than 3 items; other saved ZIPs are kept; the searched list is the old one followed by the new items, each once; the ZIP count is the number of ZIPs |
| Scrape.ScrapeAll | scripts/scrape.js:141-176 | main builds that output |
| Scrape.TableValid | scripts/scrape.js:30-39 | the ZIP table has distinct keys in enumeration order |
| Scrape.ItemsWellFormed | scripts/scrape.js:27 | the item list has no repeats and no integer-like names |
| BuildStatic.FilterSpec | scripts/build-static.js:34-39 | the filtered items are exactly the basic items the ZIP has, copied unchanged, and the total is their sum |
| BuildStatic.BuildEntrySpec | scripts/build-static.js:41-50 | a ZIP is kept exactly when some basic item is left; it keeps its location and store and totals its items rounded |
| BuildStatic.BuildAllSpec | scripts/build-static.js:29-51 | the output holds exactly the saved ZIPs that keep an entry, each built from its saved entry |
| BuildStatic.StaticFileSpec | scripts/build-static.js:53-60 | fixed metadata, the copied time stamp, a ZIP count equal to the number of ZIPs, and no ZIP with an empty items object |
| BuildStatic.Build | scripts/build-static.js:29-60 | the nested loops build that file |
| Basket.FromNames | client/js/basket.js:53 | one entry per preset name, in order, each with quantity 1 |
| Basket.AddedSpec | client/js/basket.js:42-48 | addItem appends the cleaned name exactly when it is non-empty and new, and keeps names distinct |
| Basket.AddedIdempotent | client/js/basket.js:43-45 | adding the same cleaned name twice is the same as adding it once |
| Basket.RemovedSpec | client/js/basket.js:36 | removing a listed index deletes exactly that entry and keeps the rest in order |
| Basket.PresetsDistinct | client/js/basket.js:10-15 | every preset lists distinct names |
| Basket.BasketState.constructor | client/js/basket.js:88 | the basket starts as the "basics" preset |
| Basket.BasketState.AddItem | client/js/basket.js:42-48 | the basket becomes the added list and stays well formed |
| Basket.BasketState.SetPreset | client/js/basket.js:50-54 | an unknown preset changes nothing; a known one replaces the basket; the basket stays well formed |
| Basket.BasketState.RemoveAt | client/js/basket.js:36 | the basket becomes the spliced list and stays well formed |
| Basket.BasketState.GetItems | client/js/basket.js:93 | returns a fresh copy of the entries |
| Snapshot.CheapestIndex | client/js/savings.js:24-31 | the first entry with the smallest total; none only for an empty object |
| Snapshot.ScanCheapest | client/js/map.js:93-100 | the scan finds that ZIP and total |
| Savings.ToFixed0 | client/js/savings.js:36 | within half of the value, and non-negative for a non-negative value |
| Savings.ShowSavings | client/js/savings.js:16-36 | no card without the section; otherwise the card for the home ZIP |
| Savings.CardExists | client/js/savings.js:20-21 | there is a card exactly when the home ZIP has an entry |
| Savings.CardFigures | client/js/savings.js:24-36 | the cheapest total is the smallest total, savings are never negative and are 0 exactly when home is as cheap as every ZIP, and the monthly figure is four times the savings |
| Savings.PercentBounds | client/js/savings.js:36 | the percentage lies between 0 and 100 |
| Savings.CheapestIsFirst | client/js/savings.js:24-33 | the cheapest neighbourhood is that of the first entry with the smallest total |
| PriceMap.PinClassOf | client/js/map.js:74-75 | home wins over cheapest, and default is neither |
| PriceMap.MarkersFor | client/js/map.js:102-121 | one marker per entry, in enumeration order |
| PriceMap.LowestZipFirst | client/js/map.js:104 | among the known ZIPs, 13045 always enumerates first |
| PriceMap.HomePinIsFirstKey | client/js/map.js:104 | as written, exactly the first enumerated ZIP gets the home pin |
| PriceMap.HomePinAsWritten | client/js/map.js:104 | for home 14850, 13045 gets the home pin and 14850 does not |
| PriceMap.PlottedSpec | client/js/map.js:102-107 | exactly the home ZIP's marker is a home pin, and the cheapest ZIP's marker is a cheapest pin unless it is home |
| PriceMap.RemoveLayer | client/js/map.js:90 | the first equal layer leaves the map |
| PriceMap.PriceMapView.constructor | client/js/map.js:85 | no markers and no fitted view |
| PriceMap.PriceMapView.ClearMarkers | client/js/map.js:90-91 | every old marker leaves the map and the marker list is emptied |
| PriceMap.PriceMapView.PlotPrices | client/js/map.js:89-128 | as written, the home pin goes to the first enumerated ZIP; the map shows exactly those markers, and the view is fitted only when there is one |
| PriceMap.PriceMapView.PlotPricesForHome | client/js/map.js:104 | the same with the home pin on the requested home ZIP |
| PriceMap.PriceMapView.PlaceMarkers | client/js/map.js:90-128 | clears the old markers, places one marker per entry with the given home ZIP and the cheapest ZIP, and fits the view only when some marker exists |

## Left out

- Repeated or nested query parameters: Express can hand the handler an array or an object. For `items` the model keeps only "not a string": `split` then throws and the catch answers 500. For `zip` the model keeps only a string or nothing. A repeated `zip` is an array that does not throw: the cache key uses its comma join and the mock's `ZIPS[zip]` lookup converts it to a string. That path is not modelled.
- Records of an untyped JSON reply: the model takes every array element to be an object and every price string to be a string. Not modelled:
  - a non-string truthy `priceString`, whose `.replace` throws and rejects the whole search;
  - a `null` product in the scrape script, which throws inside the per-item `try`;
  - a `null` product in an Instacart reply, which throws after earlier products of that reply were pushed, so the catch keeps those partial records.
- Inherited prototype properties: a preset key or ZIP such as "constructor" would find one in a lookup. Lookups are modelled on own keys only.
- IEEE-754 doubles: prices are exact reals. Rounding error in `Math.round`, `toFixed` and sums is not modelled, nor is `-0`.
- `parseFloat` does not accept "Infinity". NaN is `None`.
- Unicode: `trim` and `toLowerCase` cover ASCII white space and letters only. `items.sort()` is the `StringSort.Below` order on characters rather than UTF-16 code units. `charCodeAt` in the mock hash is modelled on UTF-16 code units.
- `Date.now()` is one `now` argument per handler call. The clock moving between `cache.has` and `cache.get` is not modelled.
- Concurrency: `Promise.allSettled` batches and the sequential `await`s are modelled as sequences of settled results, in item order.
- I/O is left out: `fetch`, HTTP status codes, timeouts, JSON parsing errors, file reads and writes, `process.exit`, console logging.
- Missing credentials are a boolean parameter.
- The missing-token exit at the start of the scrape script (scripts/scrape.js:21-24) is not modelled.
- The saved file's read (`loadExisting`) is an `Option` parameter.
- The scrape time stamp is a parameter.
- The DOM is not modelled: Leaflet icons, popups, the pins' `toFixed(0)` labels, the savings card's HTML, `centerOn` and `renderPills`.
- Timers are not modelled: the pins' `setTimeout` staggering, and a pending timer adding a marker after a later `plotPrices` has cleared the map.
- Basket.BasketState.GetItems: a fresh array is returned. Aliasing between a caller's copy and the basket's entries is not modelled.
- StringSort.Sort: `items.sort()` sorts in place; the model sorts a value.
- PriceMap.RemoveLayer: markers are compared by value, not by object identity.
- `undefined`-valued fields are treated like missing ones.

## Findings

| source | as written | input that shows it | evidently intended | confidence | as-written member | corrected member |
|---|---|---|---|---|---|---|
| client/js/map.js:104 | the home pin goes to `Object.keys(pricesByZip)[0]` | home ZIP 14850: ZIP keys are integer-like and enumerate ascending, so the first key is 13045 | the marker whose ZIP equals the requested home ZIP gets the home pin | high; not executed | PriceMap.HomePinAsWritten | PriceMap.PlottedSpec |
| server/routes/prices.js:32 | the cache key is the text `prices:` + zip + `:` + sorted items joined by commas | zip "14850:x" with items "milk", and zip "14850" with items "x:milk", give the same key, so the second request is answered with the first one's prices | distinct requests get distinct cache entries | medium; not executed | PricesRoute.CollidingRequestAnsweredFromCache | PricesRoute.KeyOfIdentifiesRequest |
