/** The static build of scripts/build-static.js: it keeps only the five
    basic items of each saved ZIP entry, totals them, drops ZIPs left with
    none, and wraps the result in the shape of a price-route response. */
module BuildStatic {
  import opened Wrappers
  import opened JsNumber
  import opened JsObject
  import opened Snapshot
  import Scrape

  /** The script's `ITEMS`, the same list the scrape searches for. */
  const Items: seq<string> := Scrape.Items
  const StaticHomeZip: string := "14850"
  const StaticSource: string := "pre-scraped"

  /** The saved price file; `scrapedAt` may be missing. */
  datatype SavedFile = SavedFile(scrapedAt: Option<string>, pricesByZip: Obj<ZipEntry>)

  /** The file the script writes. */
  datatype StaticOutput = StaticOutput(
    homeZip: string,
    items: seq<string>,
    source: string,
    scrapedAt: Option<string>,
    zipsReturned: nat,
    pricesByZip: Obj<ZipEntry>)

  /** The inner loop state: `filteredItems` and `basketTotal`. */
  datatype Filtered = Filtered(items: Obj<PricedItem>, total: real)

  /** The inner loop over `names` for one ZIP's `items` object. */
  function Filter(names: seq<string>, items: Obj<PricedItem>): Filtered {
    if names == [] then Filtered([], 0.0)
    else
      var n := |names| - 1;
      var f := Filter(names[..n], items);
      var found := Get(items, names[n]);
      if found.Some? then Filtered(Put(f.items, names[n], found.value), f.total + found.value.price) else f
  }

  /** `out` holds exactly those of `names` present in `items`, copied
      unchanged, in a well-formed object. */
  ghost predicate Keeps(names: seq<string>, items: Obj<PricedItem>, out: Obj<PricedItem>) {
    && Valid(out)
    && (forall k :: HasKey(out, k) <==> k in names && HasKey(items, k))
    && (forall k :: HasKey(out, k) ==> Get(out, k) == Get(items, k))
  }

  /** For distinct names that are not integer-like: the filtered object
      holds exactly the names present in the ZIP's items, copied unchanged,
      and the total is the sum of their prices. */
  lemma FilterSpec(names: seq<string>, items: Obj<PricedItem>)
    requires Scrape.Distinct(names) && Scrape.NoIndexKeys(names)
    ensures var f := Filter(names, items);
      && Keeps(names, items, f.items)
      && f.total == Sum(ListedPrices(f.items))
  {
    FilterKeeps(names, items);
    FilterTotal(names, items);
  }

  lemma {:induction false} FilterKeeps(names: seq<string>, items: Obj<PricedItem>)
    requires Scrape.Distinct(names) && Scrape.NoIndexKeys(names)
    ensures Keeps(names, items, Filter(names, items).items)
  {
    if names != [] {
      var n := |names| - 1;
      assert Scrape.Distinct(names[..n]) && Scrape.NoIndexKeys(names[..n]);
      FilterKeeps(names[..n], items);
      assert names == names[..n] + [names[n]];
      var found := Get(items, names[n]);
      if found.Some? {
        KeepsPut(names, items, Filter(names[..n], items).items);
      }
    }
  }

  lemma KeepsPut(names: seq<string>, items: Obj<PricedItem>, prev: Obj<PricedItem>)
    requires Scrape.Distinct(names) && Scrape.NoIndexKeys(names) && names != []
    requires Keeps(names[..|names| - 1], items, prev)
    requires HasKey(items, names[|names| - 1])
    ensures Keeps(names, items, Put(prev, names[|names| - 1], Get(items, names[|names| - 1]).value))
  {
    var n := |names| - 1;
    var k := names[n];
    var v := Get(items, k).value;
    assert names == names[..n] + [k];
    assert k !in names[..n];
    PutValid(prev, k, v);
    PutKeys(prev, k, v);
    PutGet(prev, k, v);
    forall x | x != k
      ensures Get(Put(prev, k, v), x) == Get(prev, x)
    {
      PutGetOther(prev, k, v, x);
    }
  }

  lemma {:induction false} FilterTotal(names: seq<string>, items: Obj<PricedItem>)
    requires Scrape.Distinct(names) && Scrape.NoIndexKeys(names)
    ensures Filter(names, items).total == Sum(ListedPrices(Filter(names, items).items))
  {
    if names != [] {
      var n := |names| - 1;
      var k := names[n];
      assert Scrape.Distinct(names[..n]) && Scrape.NoIndexKeys(names[..n]);
      FilterTotal(names[..n], items);
      var prev := Filter(names[..n], items);
      var found := Get(items, k);
      if found.Some? {
        FilterKeeps(names[..n], items);
        assert k !in names[..n];
        PutAppends(prev.items, k, found.value);
        Scrape.ListedPricesAppend(prev.items, Prop(k, found.value));
        var ps := ListedPrices(prev.items);
        assert (ps + [found.value.price])[..|ps|] == ps;
      }
    }
  }

  /** The output entry for one saved ZIP entry: None when no item is left. */
  function BuildEntry(e: ZipEntry): Option<ZipEntry> {
    var f := Filter(Items, e.items);
    if |Keys(f.items)| > 0 then Some(ZipEntry(e.neighborhood, e.lat, e.lng, None, e.store, f.items, Round2(f.total), None))
    else None
  }

  /** An output entry keeps the location and store, lists exactly the basic
      items the saved entry has, never none, and totals them. */
  lemma BuildEntrySpec(e: ZipEntry)
    ensures BuildEntry(e).Some? <==> exists k :: k in Items && HasKey(e.items, k)
    ensures BuildEntry(e).Some? ==>
      var out := BuildEntry(e).value;
      && out.neighborhood == e.neighborhood && out.lat == e.lat && out.lng == e.lng && out.store == e.store
      && Valid(out.items) && out.items != []
      && (forall k :: HasKey(out.items, k) <==> k in Items && HasKey(e.items, k))
      && (forall k :: HasKey(out.items, k) ==> Get(out.items, k) == Get(e.items, k))
      && out.basketTotal == Round2(Sum(ListedPrices(out.items)))
  {
    Scrape.ItemsWellFormed();
    var f := Filter(Items, e.items);
    FilterSpec(Items, e.items);
    if exists k :: k in Items && HasKey(e.items, k) {
      var k :| k in Items && HasKey(e.items, k);
      var i := Position(f.items, k);
    }
    if f.items != [] {
      KeyAt(f.items, 0);
    }
  }

  /** `pricesByZip` after the outer loop over the saved entries. */
  function BuildAll(entries: Obj<ZipEntry>): Obj<ZipEntry> {
    if entries == [] then []
    else
      var n := |entries| - 1;
      var acc := BuildAll(entries[..n]);
      var e := BuildEntry(entries[n].val);
      if e.Some? then Put(acc, entries[n].key, e.value) else acc
  }

  /** A saved ZIP appears in the output exactly when some basic item is left
      for it, with the entry built from its saved entry. */
  lemma {:induction false} BuildAllSpec(entries: Obj<ZipEntry>)
    requires Valid(entries)
    ensures Valid(BuildAll(entries))
    ensures forall z :: HasKey(BuildAll(entries), z) <==> HasKey(entries, z) && BuildEntry(Get(entries, z).value).Some?
    ensures forall z :: HasKey(BuildAll(entries), z) ==> Get(BuildAll(entries), z) == BuildEntry(Get(entries, z).value)
  {
    if entries != [] {
      var n := |entries| - 1;
      var init := entries[..n];
      var k := entries[n].key;
      var acc := BuildAll(init);
      PrefixValid(entries, n);
      BuildAllSpec(init);
      LastProp(entries);
      var e := BuildEntry(entries[n].val);
      if e.Some? {
        PutValid(acc, k, e.value);
        PutKeys(acc, k, e.value);
        PutGet(acc, k, e.value);
        forall z | z != k
          ensures Get(Put(acc, k, e.value), z) == Get(acc, z)
        {
          PutGetOther(acc, k, e.value, z);
        }
      }
    }
  }

  /** The output of `build()` for a saved file. */
  function StaticFile(raw: SavedFile): StaticOutput {
    var prices := BuildAll(raw.pricesByZip);
    StaticOutput(StaticHomeZip, Items, StaticSource, raw.scrapedAt, |Keys(prices)|, prices)
  }

  /** The metadata is fixed except for the copied time stamp, the ZIP count
      is the number of output ZIPs, and no output ZIP has an empty items
      object. */
  lemma StaticFileSpec(raw: SavedFile)
    requires Valid(raw.pricesByZip)
    ensures var out := StaticFile(raw);
      && out.homeZip == "14850" && out.items == ["milk", "eggs", "bread", "butter", "rice"]
      && out.source == "pre-scraped" && out.scrapedAt == raw.scrapedAt
      && out.zipsReturned == |out.pricesByZip|
      && (forall z :: HasKey(out.pricesByZip, z) <==>
            HasKey(raw.pricesByZip, z) && exists k :: k in Items && HasKey(Get(raw.pricesByZip, z).value.items, k))
      && (forall z :: HasKey(out.pricesByZip, z) ==> Get(out.pricesByZip, z).value.items != [])
  {
    BuildAllSpec(raw.pricesByZip);
    forall z | HasKey(raw.pricesByZip, z)
      ensures BuildEntry(Get(raw.pricesByZip, z).value).Some? <==>
        exists k :: k in Items && HasKey(Get(raw.pricesByZip, z).value.items, k)
      ensures BuildEntry(Get(raw.pricesByZip, z).value).Some? ==> BuildEntry(Get(raw.pricesByZip, z).value).value.items != []
    {
      BuildEntrySpec(Get(raw.pricesByZip, z).value);
    }
  }

  lemma FilterStep(names: seq<string>, items: Obj<PricedItem>, j: nat)
    requires j < |names|
    ensures var f := Filter(names[..j], items);
      var found := Get(items, names[j]);
      Filter(names[..j + 1], items) ==
        if found.Some? then Filtered(Put(f.items, names[j], found.value), f.total + found.value.price) else f
  {
    assert names[..j + 1][..j] == names[..j];
  }

  lemma BuildAllStep(entries: Obj<ZipEntry>, i: nat)
    requires i < |entries|
    ensures var acc := BuildAll(entries[..i]);
      var e := BuildEntry(entries[i].val);
      BuildAll(entries[..i + 1]) == if e.Some? then Put(acc, entries[i].key, e.value) else acc
  {
    assert entries[..i + 1][..i] == entries[..i];
  }

  /** `build()` without the file reads and writes. */
  method Build(raw: SavedFile) returns (out: StaticOutput)
    ensures out == StaticFile(raw)
  {
    var pricesByZip: Obj<ZipEntry> := [];
    for i := 0 to |raw.pricesByZip|
      invariant pricesByZip == BuildAll(raw.pricesByZip[..i])
    {
      var zip := raw.pricesByZip[i].key;
      var zipData := raw.pricesByZip[i].val;
      var filteredItems: Obj<PricedItem> := [];
      var basketTotal := 0.0;
      for j := 0 to |Items|
        invariant Filtered(filteredItems, basketTotal) == Filter(Items[..j], zipData.items)
      {
        var item := Items[j];
        var found := Get(zipData.items, item);
        FilterStep(Items, zipData.items, j);
        if found.Some? {
          filteredItems := Put(filteredItems, item, found.value);
          basketTotal := basketTotal + found.value.price;
        }
      }
      assert Items[..|Items|] == Items;
      BuildAllStep(raw.pricesByZip, i);
      if |Keys(filteredItems)| > 0 {
        pricesByZip := Put(pricesByZip, zip,
          ZipEntry(zipData.neighborhood, zipData.lat, zipData.lng, None, zipData.store, filteredItems, Round2(basketTotal), None));
      }
    }
    assert raw.pricesByZip[..|raw.pricesByZip|] == raw.pricesByZip;
    out := StaticOutput(StaticHomeZip, Items, StaticSource, raw.scrapedAt, |Keys(pricesByZip)|, pricesByZip);
  }
}
