/** The offline pre-scrape of scripts/scrape.js: for every ZIP that does not
    yet have three items, search each of five items with the scraper actor,
    keep the first product with a positive price, total the basket, and
    merge the new ZIP entries into the saved price file. */
module Scrape {
  import opened Wrappers
  import opened JsString
  import opened JsNumber
  import opened JsObject
  import opened Actor
  import opened Snapshot
  import Apify

  const Items: seq<string> := ["milk", "eggs", "bread", "butter", "rice"]
  const DefaultStore: string := "Instacart"
  const SkipThreshold: int := 3

  // ---------------------------------------------------------------------
  // Prices

  /** `extractPrice`: the first of the top-level price string, the nested
      price string and a numeric `price` field that gives a positive value,
      else 0. */
  function ExtractPrice(p: ActorRecord): (n: real)
    ensures n == 0.0 || n > 0.0
  {
    var top := if Truthy(p.priceString) then ParsePriceText(p.priceString.value) else None;
    var deep := if Truthy(DeepPriceString(p)) then ParsePriceText(DeepPriceString(p).value) else None;
    if top.Some? && top.value > 0.0 then top.value
    else if deep.Some? && deep.value > 0.0 then deep.value
    else if p.price.PriceNumber? && p.price.n > 0.0 then p.price.n
    else 0.0
  }

  /** Wherever the server's extraction finds a positive price, the script
      finds the same one; the script differs only where the server would
      report 0. */
  lemma ExtractPriceAgrees(p: ActorRecord)
    ensures Apify.ExtractPrice(p) > 0.0 ==> ExtractPrice(p) == Apify.ExtractPrice(p)
  {
  }

  /** The parsed top-level and nested price strings, None when the string
      is falsy or does not parse. */
  function TopPrice(p: ActorRecord): Option<real> {
    if Truthy(p.priceString) then ParsePriceText(p.priceString.value) else None
  }

  function DeepPrice(p: ActorRecord): Option<real> {
    if Truthy(DeepPriceString(p)) then ParsePriceText(DeepPriceString(p).value) else None
  }

  predicate PositivePrice(v: Option<real>) {
    v.Some? && v.value > 0.0
  }

  /** The order `extractPrice` tries its sources in: the top-level string
      when it gives a positive value, else the nested string when it does,
      else a positive numeric `price` field, else 0. */
  lemma ExtractPriceOrder(p: ActorRecord)
    ensures PositivePrice(TopPrice(p)) ==> ExtractPrice(p) == TopPrice(p).value
    ensures !PositivePrice(TopPrice(p)) && PositivePrice(DeepPrice(p)) ==> ExtractPrice(p) == DeepPrice(p).value
    ensures !PositivePrice(TopPrice(p)) && !PositivePrice(DeepPrice(p)) && p.price.PriceNumber? && p.price.n > 0.0 ==>
      ExtractPrice(p) == p.price.n
    ensures !PositivePrice(TopPrice(p)) && !PositivePrice(DeepPrice(p)) && !(p.price.PriceNumber? && p.price.n > 0.0) ==>
      ExtractPrice(p) == 0.0
  {
  }

  /** A numeric `price` field is read by the script, after the top-level
      string, and never by the server, which then has no nested string. */
  lemma NumericPriceOnlyHere(p: ActorRecord)
    requires p.price.PriceNumber?
    ensures DeepPrice(p).None?
    ensures Apify.ExtractPrice(p) == if TopPrice(p).Some? then TopPrice(p).value else 0.0
    ensures ExtractPrice(p) ==
      if PositivePrice(TopPrice(p)) then TopPrice(p).value
      else if p.price.n > 0.0 then p.price.n
      else 0.0
  {
  }

  /** A top-level string that parses to 0 ends the server's search with 0,
      while the script goes on to a positive nested price. */
  lemma ZeroTopDiffers(p: ActorRecord)
    requires TopPrice(p) == Some(0.0) && PositivePrice(DeepPrice(p))
    ensures Apify.ExtractPrice(p) == 0.0
    ensures ExtractPrice(p) == DeepPrice(p).value
  {
  }

  // ---------------------------------------------------------------------
  // One item

  /** The record `scrapeItem` returns. */
  datatype ScrapedItem = ScrapedItem(name: string, searchQuery: string, price: real, store: string, image: Option<string>, unit: string)

  function ScrapedOf(item: string, p: ActorRecord): (r: ScrapedItem)
    ensures r.searchQuery == item && r.price == ExtractPrice(p) && r.image == ImageOf(p)
    ensures Truthy(p.name) ==> r.name == p.name.value
    ensures !Truthy(p.name) ==> r.name == item
    ensures Truthy(p.retailerName) ==> r.store == p.retailerName.value
    ensures !Truthy(p.retailerName) && Truthy(p.store) ==> r.store == p.store.value
    ensures !Truthy(p.retailerName) && !Truthy(p.store) ==> r.store == DefaultStore
    ensures Truthy(PricingUnitString(p)) ==> r.unit == PricingUnitString(p).value
    ensures !Truthy(PricingUnitString(p)) && Truthy(p.size) ==> r.unit == p.size.value
    ensures !Truthy(PricingUnitString(p)) && !Truthy(p.size) ==> r.unit == "each"
  {
    ScrapedItem(Or(p.name, item), item, ExtractPrice(p), StoreOf(p), ImageOf(p), UnitOf(p))
  }

  /** The first product with a positive price, if any. */
  function FirstPriced(item: string, ps: seq<ActorRecord>): Option<ScrapedItem> {
    if ps == [] then None
    else if ExtractPrice(ps[0]) > 0.0 then Some(ScrapedOf(item, ps[0]))
    else FirstPriced(item, ps[1..])
  }

  /** None exactly when no product has a positive price; otherwise the
      product at the first position with a positive price. */
  lemma {:induction false} FirstPricedSpec(item: string, ps: seq<ActorRecord>)
    ensures FirstPriced(item, ps).None? <==> forall k :: 0 <= k < |ps| ==> ExtractPrice(ps[k]) == 0.0
    ensures FirstPriced(item, ps).Some? ==>
      exists k :: (0 <= k < |ps| && ExtractPrice(ps[k]) > 0.0
        && (forall j :: 0 <= j < k ==> ExtractPrice(ps[j]) == 0.0)
        && FirstPriced(item, ps) == Some(ScrapedOf(item, ps[k])))
  {
    if ps != [] {
      FirstPricedSpec(item, ps[1..]);
      if ExtractPrice(ps[0]) == 0.0 {
        forall k | 1 <= k < |ps| ensures ps[k] == ps[1..][k - 1] { }
        if FirstPriced(item, ps).Some? {
          var k :| 0 <= k < |ps[1..]| && ExtractPrice(ps[1..][k]) > 0.0
            && (forall j :: 0 <= j < k ==> ExtractPrice(ps[1..][j]) == 0.0)
            && FirstPriced(item, ps[1..]) == Some(ScrapedOf(item, ps[1..][k]));
          assert forall j :: 0 <= j < k + 1 ==> ExtractPrice(ps[j]) == 0.0 by {
            forall j | 0 < j < k + 1 ensures ExtractPrice(ps[j]) == 0.0 {
              assert ps[j] == ps[1..][j - 1];
            }
          }
        }
      }
    }
  }

  /** What `scrapeItem` settles with: rejected on a failed run, null for a
      non-array or empty dataset, else the first positively priced product. */
  function ScrapeItemResult(item: string, run: Run): Result<Option<ScrapedItem>> {
    if run.RunFailed? then Throws(run.reason)
    else if run.dataset.NotArray? || run.dataset.records == [] then Ok(None)
    else Ok(FirstPriced(item, run.dataset.records))
  }

  /** `scrapeItem(item, zip, address)`, given the run its actor call made. */
  method ScrapeItem(item: string, run: Run) returns (r: Result<Option<ScrapedItem>>)
    ensures r == ScrapeItemResult(item, run)
  {
    if run.RunFailed? {
      return Throws(run.reason);
    }
    if run.dataset.NotArray? || |run.dataset.records| == 0 {
      return Ok(None);
    }
    var products := run.dataset.records;
    for i := 0 to |products|
      invariant FirstPriced(item, products) == FirstPriced(item, products[i..])
    {
      var price := ExtractPrice(products[i]);
      assert products[i..][1..] == products[i + 1..];
      if price > 0.0 {
        return Ok(Some(ScrapedOf(item, products[i])));
      }
    }
    return Ok(None);
  }

  // ---------------------------------------------------------------------
  // One ZIP

  /** A ZIP of the script's table. */
  datatype ZipInfo = ZipInfo(address: string, neighborhood: string, lat: real, lng: real)

  /** The loop state of `scrapeZip`: `items`, `basketTotal` and `store`. */
  datatype Tally = Tally(items: Obj<PricedItem>, total: real, store: string)

  /** The snapshot record kept for a scraped item. */
  function EntryOf(s: ScrapedItem): PricedItem {
    PricedItem(s.price, s.store, Some(ProductDetail(s.name, s.image, s.unit)))
  }

  predicate Positive(f: Option<ScrapedItem>) {
    f.Some? && f.value.price > 0.0
  }

  /** The loop of `scrapeZip` over `names`, with `found[i]` what the search
      for `names[i]` gave (None for null or a caught error). */
  function Accumulate(names: seq<string>, found: seq<Option<ScrapedItem>>): Tally
    requires |found| == |names|
  {
    if names == [] then Tally([], 0.0, DefaultStore)
    else
      var n := |names| - 1;
      var t := Accumulate(names[..n], found[..n]);
      if Positive(found[n]) then
        Tally(Put(t.items, names[n], EntryOf(found[n].value)), t.total + found[n].value.price, found[n].value.store)
      else t
  }

  predicate Distinct(s: seq<string>) {
    forall i, j :: 0 <= i < j < |s| ==> s[i] != s[j]
  }

  predicate NoIndexKeys(s: seq<string>) {
    forall i :: 0 <= i < |s| ==> !IsArrayIndex(s[i])
  }

  lemma ListedPricesAppend(o: Obj<PricedItem>, p: Prop<PricedItem>)
    ensures ListedPrices(o + [p]) == ListedPrices(o) + [p.val.price]
  {
  }

  /** The tally `items` lists exactly the items of `names` found with a
      positive price, once each, with their records. */
  ghost predicate Tallied(names: seq<string>, found: seq<Option<ScrapedItem>>, items: Obj<PricedItem>)
    requires |found| == |names|
  {
    && Valid(items)
    && (forall k :: HasKey(items, k) ==> k in names)
    && (forall i :: 0 <= i < |names| ==> (HasKey(items, names[i]) <==> Positive(found[i])))
    && (forall i :: 0 <= i < |names| && Positive(found[i]) ==> Get(items, names[i]) == Some(EntryOf(found[i].value)))
  }

  /** For distinct item names that are not integer-like, the tally lists
      exactly the items found with a positive price, each with its record. */
  lemma {:induction false} AccumulateSpec(names: seq<string>, found: seq<Option<ScrapedItem>>)
    requires |found| == |names| && Distinct(names) && NoIndexKeys(names)
    ensures Tallied(names, found, Accumulate(names, found).items)
  {
    if names != [] {
      var n := |names| - 1;
      assert Distinct(names[..n]) && NoIndexKeys(names[..n]);
      AccumulateSpec(names[..n], found[..n]);
      if Positive(found[n]) {
        TalliedPut(names, found, Accumulate(names[..n], found[..n]).items);
      } else {
        TalliedSkip(names, found, Accumulate(names[..n], found[..n]).items);
      }
    }
  }

  lemma TalliedPut(names: seq<string>, found: seq<Option<ScrapedItem>>, prev: Obj<PricedItem>)
    requires |found| == |names| && Distinct(names) && NoIndexKeys(names) && names != []
    requires Tallied(names[..|names| - 1], found[..|names| - 1], prev)
    requires Positive(found[|names| - 1])
    ensures Tallied(names, found, Put(prev, names[|names| - 1], EntryOf(found[|names| - 1].value)))
  {
    var n := |names| - 1;
    var k := names[n];
    var e := EntryOf(found[n].value);
    TalliedPrefix(names, found, prev);
    PutValid(prev, k, e);
    PutKeys(prev, k, e);
    TalliedPutGet(names, found, prev);
  }

  /** The tally of all but the last name, read against the whole lists. */
  lemma TalliedPrefix(names: seq<string>, found: seq<Option<ScrapedItem>>, prev: Obj<PricedItem>)
    requires |found| == |names| && Distinct(names) && names != []
    requires Tallied(names[..|names| - 1], found[..|names| - 1], prev)
    ensures Valid(prev)
    ensures forall k :: HasKey(prev, k) ==> k in names && k != names[|names| - 1]
    ensures forall i :: 0 <= i < |names| - 1 ==> (HasKey(prev, names[i]) <==> Positive(found[i]))
    ensures forall i :: 0 <= i < |names| - 1 && Positive(found[i]) ==> Get(prev, names[i]) == Some(EntryOf(found[i].value))
  {
    var n := |names| - 1;
    assert forall i :: 0 <= i < n ==> names[..n][i] == names[i] && found[..n][i] == found[i];
    forall k | HasKey(prev, k) ensures k in names && k != names[n] {
      assert k in names[..n];
      var i :| 0 <= i < n && names[..n][i] == k;
      assert names[i] == k;
    }
  }

  lemma TalliedPutGet(names: seq<string>, found: seq<Option<ScrapedItem>>, prev: Obj<PricedItem>)
    requires |found| == |names| && Distinct(names) && NoIndexKeys(names) && names != []
    requires Valid(prev) && !HasKey(prev, names[|names| - 1])
    requires forall i :: 0 <= i < |names| - 1 && Positive(found[i]) ==> Get(prev, names[i]) == Some(EntryOf(found[i].value))
    requires Positive(found[|names| - 1])
    ensures var r := Put(prev, names[|names| - 1], EntryOf(found[|names| - 1].value));
      forall i :: 0 <= i < |names| && Positive(found[i]) ==> Get(r, names[i]) == Some(EntryOf(found[i].value))
  {
    var n := |names| - 1;
    var k := names[n];
    var e := EntryOf(found[n].value);
    PutGet(prev, k, e);
    forall i | 0 <= i < n && Positive(found[i])
      ensures Get(Put(prev, k, e), names[i]) == Some(EntryOf(found[i].value))
    {
      PutGetOther(prev, k, e, names[i]);
    }
  }

  lemma TalliedSkip(names: seq<string>, found: seq<Option<ScrapedItem>>, prev: Obj<PricedItem>)
    requires |found| == |names| && Distinct(names) && names != []
    requires Tallied(names[..|names| - 1], found[..|names| - 1], prev)
    requires !Positive(found[|names| - 1])
    ensures Tallied(names, found, prev)
  {
    var n := |names| - 1;
    assert forall i :: 0 <= i < n ==> names[..n][i] == names[i] && found[..n][i] == found[i];
    assert forall x :: x in names[..n] ==> x in names;
    assert !HasKey(prev, names[n]);
  }

  /** Every listed price is positive and the running total is their sum. */
  lemma {:induction false} AccumulateTotal(names: seq<string>, found: seq<Option<ScrapedItem>>)
    requires |found| == |names| && Distinct(names) && NoIndexKeys(names)
    ensures var t := Accumulate(names, found);
      && (forall j :: 0 <= j < |t.items| ==> t.items[j].val.price > 0.0)
      && t.total == Sum(ListedPrices(t.items))
  {
    if names != [] {
      var n := |names| - 1;
      var prev := Accumulate(names[..n], found[..n]);
      assert Distinct(names[..n]) && NoIndexKeys(names[..n]);
      AccumulateTotal(names[..n], found[..n]);
      if Positive(found[n]) {
        var p := Prop(names[n], EntryOf(found[n].value));
        AccumulateFresh(names, found);
        PutAppends(prev.items, p.key, p.val);
        ListedPricesAppend(prev.items, p);
        var ps := ListedPrices(prev.items);
        assert (ps + [p.val.price])[..|ps|] == ps;
        assert forall j :: 0 <= j < |prev.items| ==> (prev.items + [p])[j] == prev.items[j];
      }
    }
  }

  /** The last name is not yet listed when its search is tallied. */
  lemma AccumulateFresh(names: seq<string>, found: seq<Option<ScrapedItem>>)
    requires |found| == |names| && Distinct(names) && NoIndexKeys(names) && names != []
    ensures !HasKey(Accumulate(names[..|names| - 1], found[..|names| - 1]).items, names[|names| - 1])
  {
    var n := |names| - 1;
    AccumulateSpec(names[..n], found[..n]);
    assert names[n] !in names[..n];
  }

  /** `store` is the store of the last item recorded, or "Instacart" when
      none was. */
  lemma {:induction false} AccumulateStore(names: seq<string>, found: seq<Option<ScrapedItem>>)
    requires |found| == |names|
    ensures (forall i :: 0 <= i < |names| ==> !Positive(found[i])) ==> Accumulate(names, found).store == DefaultStore
    ensures forall j :: 0 <= j < |names| && Positive(found[j]) && (forall i :: j < i < |names| ==> !Positive(found[i])) ==>
      Accumulate(names, found).store == found[j].value.store
  {
    if names != [] {
      var n := |names| - 1;
      AccumulateStore(names[..n], found[..n]);
      assert forall i :: 0 <= i < n ==> found[..n][i] == found[i];
    }
  }

  /** What each of `names` gave in ZIP `zip`, where `runs(zip, item)` is the
      run made for that search. */
  function Founds(names: seq<string>, zip: string, runs: (string, string) -> Run): (f: seq<Option<ScrapedItem>>)
    ensures |f| == |names|
  {
    seq(|names|, i requires 0 <= i < |names| =>
      var r := ScrapeItemResult(names[i], runs(zip, names[i])); if r.Ok? then r.value else None)
  }

  /** The record `scrapeZip` returns for a tally. */
  function ZipEntryOf(info: ZipInfo, t: Tally): ZipEntry {
    ZipEntry(info.neighborhood, info.lat, info.lng, None, Some(t.store), t.items, Round2(t.total), Some(|t.items|))
  }

  /** The record for ZIP `zip`. */
  function ScrapedEntry(zip: string, info: ZipInfo, runs: (string, string) -> Run): ZipEntry {
    ZipEntryOf(info, Accumulate(Items, Founds(Items, zip, runs)))
  }

  lemma ItemsWellFormed()
    ensures Distinct(Items) && NoIndexKeys(Items)
  {
    forall i | 0 <= i < |Items| ensures !IsArrayIndex(Items[i]) {
      assert !IsDigit(Items[i][0]);
    }
  }

  /** The scraped record lists only items of the list, each with a positive
      price; its basket total is the rounded sum of the listed prices and its
      item count the number of listed items; location fields come from the
      table. */
  lemma ScrapedEntrySpec(zip: string, info: ZipInfo, runs: (string, string) -> Run)
    ensures var e := ScrapedEntry(zip, info, runs);
      && Valid(e.items)
      && (forall k :: HasKey(e.items, k) ==> k in Items)
      && (forall j :: 0 <= j < |e.items| ==> e.items[j].val.price > 0.0)
      && e.basketTotal == Round2(Sum(ListedPrices(e.items)))
      && e.itemCount == Some(|Keys(e.items)|)
      && e.neighborhood == info.neighborhood && e.lat == info.lat && e.lng == info.lng
  {
    ItemsWellFormed();
    AccumulateSpec(Items, Founds(Items, zip, runs));
    AccumulateTotal(Items, Founds(Items, zip, runs));
  }

  lemma AccumulateStep(names: seq<string>, found: seq<Option<ScrapedItem>>, i: nat)
    requires |found| == |names| && i < |names|
    ensures var t := Accumulate(names[..i], found[..i]);
      Accumulate(names[..i + 1], found[..i + 1]) ==
        if Positive(found[i]) then Tally(Put(t.items, names[i], EntryOf(found[i].value)), t.total + found[i].value.price, found[i].value.store)
        else t
  {
    assert names[..i + 1][..i] == names[..i];
    assert found[..i + 1][..i] == found[..i];
  }

  /** `scrapeZip(zip, zipData)`, with `runs(zip, item)` the run for each search. */
  method ScrapeZip(zip: string, info: ZipInfo, runs: (string, string) -> Run) returns (entry: ZipEntry)
    ensures entry == ScrapedEntry(zip, info, runs)
  {
    ghost var found := Founds(Items, zip, runs);
    var items: Obj<PricedItem> := [];
    var basketTotal := 0.0;
    var store := DefaultStore;
    for i := 0 to |Items|
      invariant Tally(items, basketTotal, store) == Accumulate(Items[..i], found[..i])
    {
      var item := Items[i];
      var result := ScrapeItem(item, runs(zip, item));
      AccumulateStep(Items, found, i);
      if result.Ok? && result.value.Some? && result.value.value.price > 0.0 {
        var s := result.value.value;
        items := Put(items, item, EntryOf(s));
        basketTotal := basketTotal + s.price;
        store := s.store;
      }
    }
    assert Items[..|Items|] == Items && found[..|Items|] == found;
    entry := ZipEntry(info.neighborhood, info.lat, info.lng, None, Some(store), items, Round2(basketTotal), Some(|Keys(items)|));
  }

  // ---------------------------------------------------------------------
  // The whole run

  /** The ZIP table, in the order its literal is written. */
  const TableLiteral: seq<(string, ZipInfo)> := [
    ("14850", ZipInfo("301 E State St, Ithaca, NY 14850", "Ithaca (Downtown)", 42.4440, -76.5019)),
    ("14853", ZipInfo("104 Dryden Rd, Ithaca, NY 14853", "Collegetown", 42.4430, -76.4856)),
    ("14882", ZipInfo("2309 N Triphammer Rd, Ithaca, NY 14882", "Lansing", 42.5722, -76.5290)),
    ("14886", ZipInfo("56 E Main St, Trumansburg, NY 14886", "Trumansburg", 42.5429, -76.6608)),
    ("14830", ZipInfo("40 Centerway, Corning, NY 14830", "Corning", 42.1428, -77.0547)),
    ("14845", ZipInfo("1400 County Rd 64, Horseheads, NY 14845", "Horseheads", 42.1670, -76.8205)),
    ("14901", ZipInfo("100 N Main St, Elmira, NY 14901", "Elmira", 42.0898, -76.8077)),
    ("13045", ZipInfo("3980 NY-281, Cortland, NY 13045", "Cortland", 42.6012, -76.1805))
  ]

  /** An object whose properties are set in the given order. */
  function FromEntries<V>(pairs: seq<(string, V)>): Obj<V> {
    if pairs == [] then []
    else
      var n := |pairs| - 1;
      Put(FromEntries(pairs[..n]), pairs[n].0, pairs[n].1)
  }

  lemma {:induction false} FromEntriesValid<V>(pairs: seq<(string, V)>)
    ensures Valid(FromEntries(pairs))
  {
    if pairs != [] {
      var n := |pairs| - 1;
      FromEntriesValid(pairs[..n]);
      PutValid(FromEntries(pairs[..n]), pairs[n].0, pairs[n].1);
    }
  }

  /** `ZIPS`; `Object.entries` lists it in ascending ZIP order. */
  function Table(): Obj<ZipInfo> {
    FromEntries(TableLiteral)
  }

  /** The saved price file as read back: either field may be missing. */
  datatype SavedFile = SavedFile(itemsSearched: Option<seq<string>>, pricesByZip: Option<Obj<ZipEntry>>)

  /** The file the script writes. */
  datatype Output = Output(scrapedAt: string, itemsSearched: seq<string>, zipCount: nat, pricesByZip: Obj<ZipEntry>)

  /** `existing?.pricesByZip || {}`. */
  function ExistingPrices(existing: Option<SavedFile>): Obj<ZipEntry> {
    if existing.Some? && existing.value.pricesByZip.Some? then existing.value.pricesByZip.value else []
  }

  /** `existing?.itemsSearched || []`. */
  function ExistingSearched(existing: Option<SavedFile>): seq<string> {
    if existing.Some? && existing.value.itemsSearched.Some? then existing.value.itemsSearched.value else []
  }

  /** `data && data.itemCount >= 3`: an absent count never skips. */
  predicate Skip(prices: Obj<ZipEntry>, zip: string) {
    var d := Get(prices, zip);
    d.Some? && d.value.itemCount.Some? && d.value.itemCount.value >= SkipThreshold
  }

  /** `Object.entries(ZIPS).filter(...)`, in table order. */
  function ToScrape(table: Obj<ZipInfo>, prices: Obj<ZipEntry>): (r: Obj<ZipInfo>)
    ensures |r| <= |table|
    ensures forall p :: p in r <==> p in table && !Skip(prices, p.key)
  {
    Filter(table, (p: Prop<ZipInfo>) => !Skip(prices, p.key))
  }

  /** `existingPrices` after the loop over the ZIPs to scrape. */
  function Merged(base: Obj<ZipEntry>, targets: Obj<ZipInfo>, runs: (string, string) -> Run): Obj<ZipEntry> {
    if targets == [] then base
    else
      var n := |targets| - 1;
      Put(Merged(base, targets[..n], runs), targets[n].key, ScrapedEntry(targets[n].key, targets[n].val, runs))
  }

  lemma MergedStep(base: Obj<ZipEntry>, targets: Obj<ZipInfo>, i: nat, runs: (string, string) -> Run)
    requires i < |targets|
    ensures Merged(base, targets[..i + 1], runs)
      == Put(Merged(base, targets[..i], runs), targets[i].key, ScrapedEntry(targets[i].key, targets[i].val, runs))
  {
    assert targets[..i + 1][..i] == targets[..i];
  }

  /** Every ZIP scraped holds its new record, every other ZIP keeps what it
      had, and no other key appears. */
  lemma MergedSpec(base: Obj<ZipEntry>, targets: Obj<ZipInfo>, runs: (string, string) -> Run)
    requires Valid(base) && Valid(targets)
    ensures Valid(Merged(base, targets, runs))
    ensures forall i :: 0 <= i < |targets| ==>
      Get(Merged(base, targets, runs), targets[i].key) == Some(ScrapedEntry(targets[i].key, targets[i].val, runs))
    ensures forall z :: !HasKey(targets, z) ==> Get(Merged(base, targets, runs), z) == Get(base, z)
    ensures KeySet(Merged(base, targets, runs)) == KeySet(base) + KeySet(targets)
  {
    MergedValid(base, targets, runs);
    MergedScraped(base, targets, runs);
    MergedKept(base, targets, runs);
    MergedKeys(base, targets, runs);
  }

  lemma {:induction false} MergedValid(base: Obj<ZipEntry>, targets: Obj<ZipInfo>, runs: (string, string) -> Run)
    requires Valid(base)
    ensures Valid(Merged(base, targets, runs))
  {
    if targets != [] {
      var n := |targets| - 1;
      MergedValid(base, targets[..n], runs);
      PutValid(Merged(base, targets[..n], runs), targets[n].key, ScrapedEntry(targets[n].key, targets[n].val, runs));
    }
  }

  lemma {:induction false} MergedScraped(base: Obj<ZipEntry>, targets: Obj<ZipInfo>, runs: (string, string) -> Run)
    requires Valid(base) && Valid(targets)
    ensures forall i :: 0 <= i < |targets| ==>
      Get(Merged(base, targets, runs), targets[i].key) == Some(ScrapedEntry(targets[i].key, targets[i].val, runs))
  {
    if targets != [] {
      var n := |targets| - 1;
      var init := targets[..n];
      var prev := Merged(base, init, runs);
      var k := targets[n].key;
      var e := ScrapedEntry(k, targets[n].val, runs);
      PrefixValid(targets, n);
      MergedScraped(base, init, runs);
      MergedValid(base, init, runs);
      PutGet(prev, k, e);
      forall i | 0 <= i < n
        ensures Get(Put(prev, k, e), targets[i].key) == Some(ScrapedEntry(targets[i].key, targets[i].val, runs))
      {
        assert init[i] == targets[i];
        PutGetOther(prev, k, e, targets[i].key);
      }
    }
  }

  lemma {:induction false} MergedKept(base: Obj<ZipEntry>, targets: Obj<ZipInfo>, runs: (string, string) -> Run)
    requires Valid(base)
    ensures forall z :: !HasKey(targets, z) ==> Get(Merged(base, targets, runs), z) == Get(base, z)
  {
    if targets != [] {
      var n := |targets| - 1;
      var init := targets[..n];
      var prev := Merged(base, init, runs);
      var k := targets[n].key;
      var e := ScrapedEntry(k, targets[n].val, runs);
      MergedKept(base, init, runs);
      MergedValid(base, init, runs);
      KeySetSnoc(init, targets[n]);
      assert targets == init + [targets[n]];
      forall z | !HasKey(targets, z)
        ensures Get(Put(prev, k, e), z) == Get(base, z)
      {
        PutGetOther(prev, k, e, z);
      }
    }
  }

  lemma {:induction false} MergedKeys(base: Obj<ZipEntry>, targets: Obj<ZipInfo>, runs: (string, string) -> Run)
    requires Valid(base)
    ensures KeySet(Merged(base, targets, runs)) == KeySet(base) + KeySet(targets)
  {
    if targets != [] {
      var n := |targets| - 1;
      var init := targets[..n];
      var prev := Merged(base, init, runs);
      MergedKeys(base, init, runs);
      MergedValid(base, init, runs);
      PutKeys(prev, targets[n].key, ScrapedEntry(targets[n].key, targets[n].val, runs));
      KeySetSnoc(init, targets[n]);
      assert targets == init + [targets[n]];
    }
  }

  lemma {:induction false} KeySetSnoc<V>(o: Obj<V>, p: Prop<V>)
    ensures KeySet(o + [p]) == KeySet(o) + {p.key}
  {
    if o != [] {
      assert (o + [p])[1..] == o[1..] + [p];
      KeySetSnoc(o[1..], p);
    }
  }

  /** `[...new Set(s)]`: each element once, at its first occurrence. */
  function Dedupe(s: seq<string>): (r: seq<string>)
    ensures forall x :: x in r <==> x in s
    ensures Distinct(r)
  {
    if s == [] then []
    else
      var n := |s| - 1;
      var d := Dedupe(s[..n]);
      assert forall x :: x in s <==> x in s[..n] || x == s[n] by {
        assert s == s[..n] + [s[n]];
      }
      if s[n] in d then d else d + [s[n]]
  }

  /** Deduplicating a longer list keeps the deduplicated shorter one in
      front, so the old list's first occurrences stay first. */
  lemma {:induction false} DedupePrefix(a: seq<string>, b: seq<string>)
    ensures Dedupe(a) <= Dedupe(a + b)
    decreases |b|
  {
    if b == [] {
      assert a + b == a;
    } else {
      var m := |b| - 1;
      assert (a + b)[..|a + b| - 1] == a + b[..m];
      DedupePrefix(a, b[..m]);
    }
  }

  /** A list without repeats is left as it is. */
  lemma {:induction false} DedupeDistinct(s: seq<string>)
    requires Distinct(s)
    ensures Dedupe(s) == s
  {
    if s != [] {
      var n := |s| - 1;
      DedupeDistinct(s[..n]);
      assert s[n] !in s[..n];
      assert s == s[..n] + [s[n]];
    }
  }

  /** The output `main` writes, for a ZIP table. */
  function ScrapeOutput(table: Obj<ZipInfo>, existing: Option<SavedFile>, runs: (string, string) -> Run, scrapedAt: string): Output {
    var prices := ExistingPrices(existing);
    var merged := Merged(prices, ToScrape(table, prices), runs);
    Output(scrapedAt, Dedupe(ExistingSearched(existing) + Items), |Keys(merged)|, merged)
  }

  /** `main()`, with the time stamp and every actor run supplied. */
  method ScrapeAll(existing: Option<SavedFile>, runs: (string, string) -> Run, scrapedAt: string) returns (out: Output)
    ensures out == ScrapeOutput(Table(), existing, runs, scrapedAt)
  {
    var existingPrices := ExistingPrices(existing);
    var table := Table();
    var zipsToScrape := ToScrape(table, existingPrices);
    ghost var base := existingPrices;
    for i := 0 to |zipsToScrape|
      invariant existingPrices == Merged(base, zipsToScrape[..i], runs)
    {
      var zip := zipsToScrape[i].key;
      var result := ScrapeZip(zip, zipsToScrape[i].val, runs);
      MergedStep(base, zipsToScrape, i, runs);
      existingPrices := Put(existingPrices, zip, result);
    }
    assert zipsToScrape[..|zipsToScrape|] == zipsToScrape;
    out := Output(scrapedAt, Dedupe(ExistingSearched(existing) + Items), |Keys(existingPrices)|, existingPrices);
  }

  /** The ZIPs to scrape are the table's ZIPs that are not skipped, with the
      table's records. */
  lemma ToScrapeSpec(table: Obj<ZipInfo>, prices: Obj<ZipEntry>)
    requires Valid(table)
    ensures Valid(ToScrape(table, prices))
    ensures forall z :: HasKey(ToScrape(table, prices), z) <==> HasKey(table, z) && !Skip(prices, z)
    ensures forall z :: HasKey(ToScrape(table, prices), z) ==> Get(ToScrape(table, prices), z) == Get(table, z)
  {
    var targets := ToScrape(table, prices);
    FilterValid(table, (p: Prop<ZipInfo>) => !Skip(prices, p.key));
    forall z | HasKey(table, z) && !Skip(prices, z)
      ensures HasKey(targets, z)
    {
      var i := Position(table, z);
      assert table[i] in targets;
      var j :| 0 <= j < |targets| && targets[j] == table[i];
      KeyAt(targets, j);
    }
    forall z | HasKey(targets, z)
      ensures HasKey(table, z) && !Skip(prices, z) && Get(targets, z) == Get(table, z)
    {
      var j := Position(targets, z);
      assert targets[j] in table;
      var i :| 0 <= i < |table| && table[i] == targets[j];
      KeyAt(table, i);
      GetAt(table, i);
      GetAt(targets, j);
    }
  }

  /** Each scraped ZIP holds the record scraped with its table entry. */
  lemma MergedByKey(base: Obj<ZipEntry>, targets: Obj<ZipInfo>, runs: (string, string) -> Run)
    requires Valid(base) && Valid(targets)
    ensures forall z :: HasKey(targets, z) ==>
      Get(Merged(base, targets, runs), z) == Some(ScrapedEntry(z, Get(targets, z).value, runs))
  {
    MergedSpec(base, targets, runs);
    forall z | HasKey(targets, z)
      ensures Get(Merged(base, targets, runs), z) == Some(ScrapedEntry(z, Get(targets, z).value, runs))
    {
      var j := Position(targets, z);
      GetAt(targets, j);
    }
  }

  /** A ZIP of the table is scraped exactly when its saved entry is missing
      or has fewer than three items (or no count); scraped ZIPs get a new
      record, all other saved ZIPs are kept as they were; the searched list
      is the old one followed by the new items, each once; and the ZIP count
      is the number of keys. */
  lemma ScrapeOutputSpec(table: Obj<ZipInfo>, existing: Option<SavedFile>, runs: (string, string) -> Run, scrapedAt: string)
    requires Valid(table) && Valid(ExistingPrices(existing))
    ensures var out := ScrapeOutput(table, existing, runs, scrapedAt);
      var prices := ExistingPrices(existing);
      && Valid(out.pricesByZip)
      && (forall z :: HasKey(table, z) && !Skip(prices, z) ==>
            Get(out.pricesByZip, z) == Some(ScrapedEntry(z, Get(table, z).value, runs)))
      && (forall z :: !(HasKey(table, z) && !Skip(prices, z)) ==> Get(out.pricesByZip, z) == Get(prices, z))
      && (forall z :: HasKey(out.pricesByZip, z) <==> HasKey(prices, z) || (HasKey(table, z) && !Skip(prices, z)))
      && Dedupe(ExistingSearched(existing)) <= out.itemsSearched
      && (forall x :: x in out.itemsSearched <==> x in ExistingSearched(existing) || x in Items)
      && Distinct(out.itemsSearched)
      && out.zipCount == |out.pricesByZip|
      && out.scrapedAt == scrapedAt
  {
    var prices := ExistingPrices(existing);
    var targets := ToScrape(table, prices);
    ToScrapeSpec(table, prices);
    MergedSpec(prices, targets, runs);
    MergedByKey(prices, targets, runs);
    DedupePrefix(ExistingSearched(existing), Items);
  }

  /** The ZIP table has distinct keys in enumeration order. */
  lemma TableValid()
    ensures Valid(Table())
  {
    FromEntriesValid(TableLiteral);
  }
}
