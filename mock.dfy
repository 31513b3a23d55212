/** The deterministic mock price source of server/services/mock.js: a base
    price per item, scaled by a per-ZIP multiplier and moved by up to about
    +/-5% by a hash of the item and the ZIP. */
module Mock {
  import opened Wrappers
  import opened JsString
  import opened JsNumber
  import opened JsObject
  import opened Snapshot

  /** BASE_PRICES: the Collegetown baseline price of each known item. */
  const BasePrices: map<string, real> := map[
    "milk" := 4.79, "eggs" := 5.99, "bread" := 4.49, "butter" := 5.29,
    "chicken breast" := 8.99, "ground beef" := 7.49, "rice" := 3.99,
    "pasta" := 2.49, "bananas" := 0.79, "apples" := 2.29, "orange juice" := 4.99,
    "cheese" := 5.49, "yogurt" := 1.69, "cereal" := 4.99, "coffee" := 9.99,
    "sugar" := 3.49, "flour" := 3.99, "olive oil" := 7.99, "tomatoes" := 3.29,
    "potatoes" := 4.49, "onions" := 2.49, "garlic" := 1.29, "lettuce" := 2.99,
    "frozen pizza" := 6.99, "ice cream" := 5.99, "ramen" := 0.99,
    "avocado" := 2.49, "spinach" := 3.49, "salmon" := 12.99, "quinoa" := 5.99,
    "blueberries" := 4.99]

  /** The base price of an item missing from BASE_PRICES. */
  const UnknownBasePrice: real := 3.99

  /** STORES: the store name shown for each ZIP. */
  const Stores: map<string, string> := map[
    "14850" := "Wegmans Ithaca", "14853" := "Collegetown Market",
    "14882" := "Tops Lansing", "14886" := "Trumansburg Grocery",
    "14867" := "P&C Fresh Newfield", "14817" := "Brooktondale Market",
    "14830" := "Tops Corning", "14845" := "Horseheads Wegmans",
    "14901" := "Tops Elmira", "13045" := "Tops Cortland"]

  const FallbackStore: string := "Local Grocery"

  datatype ZipRecord = ZipRecord(neighborhood: string, lat: real, lng: real, medianIncome: int, priceMult: real)

  /** ZIPS: the reference data of each known ZIP. */
  const Zips: map<string, ZipRecord> := map[
    "14850" := ZipRecord("Ithaca (Downtown)", 42.4440, -76.5019, 32000, 1.0),
    "14853" := ZipRecord("Collegetown / Cornell", 42.4430, -76.4856, 28000, 1.05),
    "14882" := ZipRecord("Lansing", 42.5722, -76.5290, 62000, 0.88),
    "14886" := ZipRecord("Trumansburg", 42.5429, -76.6608, 48000, 0.82),
    "14867" := ZipRecord("Newfield", 42.3579, -76.5933, 52000, 0.85),
    "14817" := ZipRecord("Brooktondale", 42.3880, -76.3960, 44000, 0.80),
    "14830" := ZipRecord("Corning", 42.1428, -77.0547, 38000, 0.78),
    "14845" := ZipRecord("Horseheads", 42.1670, -76.8205, 55000, 0.83),
    "14901" := ZipRecord("Elmira", 42.0898, -76.8077, 30000, 0.75),
    "13045" := ZipRecord("Cortland", 42.6012, -76.1805, 35000, 0.77)]

  /** The order in which the ZIPS literal writes its keys. */
  const ZipLiteralOrder: seq<string> :=
    ["14850", "14853", "14882", "14886", "14867", "14817", "14830", "14845", "14901", "13045"]

  /** `charCodeAt` reads UTF-16 code units: a character from U+10000 up is
      a surrogate pair, whose first unit is the high surrogate ... */
  function FirstCodeUnit(c: char): (u: nat)
    ensures u < 0x1_0000
    ensures c as int < 0x1_0000 ==> u == c as int
    ensures c as int >= 0x1_0000 ==> 0xD800 <= u < 0xDC00
  {
    if c as int < 0x1_0000 then c as int else 0xD800 + (c as int - 0x1_0000) / 0x400
  }

  /** ... and whose last unit is the low surrogate. */
  function LastCodeUnit(c: char): (u: nat)
    ensures u < 0x1_0000
    ensures c as int < 0x1_0000 ==> u == c as int
    ensures c as int >= 0x1_0000 ==> 0xDC00 <= u < 0xE000
  {
    if c as int < 0x1_0000 then c as int else 0xDC00 + (c as int - 0x1_0000) % 0x400
  }

  /** The jitter hash: the seed's first and last UTF-16 code units, mod 100. */
  function Hash(seed: string): (h: nat)
    requires |seed| > 0
    ensures h <= 99
  {
    (FirstCodeUnit(seed[0]) * 31 + LastCodeUnit(seed[|seed| - 1])) % 100
  }

  /** An item that starts outside the Basic Multilingual Plane hashes by its
      high surrogate: the seed of an apple emoji in 14850 hashes to 84. */
  lemma HashAstral()
    ensures Hash("\U{1F34E}14850") == 84
  {
    var s := "\U{1F34E}14850";
    assert s[0] as int == 0x1F34E && s[|s| - 1] == '0';
    assert FirstCodeUnit(s[0]) == 0xD83C;
  }

  /** `0.95 + (hash / 100) * 0.10`. */
  function Factor(h: int): real {
    0.95 + (h as real / 100.0) * 0.10
  }

  /** `jitter(base, seed)`. */
  function Jitter(base: real, seed: string): real
    requires |seed| > 0
  {
    Round2(base * Factor(Hash(seed)))
  }

  /** The jitter factor lies between 0.95 and 1.049. */
  lemma FactorBounds(seed: string)
    requires |seed| > 0
    ensures 0.95 <= Factor(Hash(seed)) <= 1.049
  {
  }

  /** The seed `key + zip` hashes by its first character (the key's, or the
      ZIP's when the key is empty) and the ZIP's last character only. */
  lemma SeedHash(key: string, zip: string)
    requires |zip| > 0
    ensures Hash(key + zip) == Hash([if key == "" then zip[0] else key[0], zip[|zip| - 1]])
  {
    var s := key + zip;
    assert s[|s| - 1] == zip[|zip| - 1];
    if key == "" {
      assert s[0] == zip[0];
    } else {
      assert s[0] == key[0];
    }
  }

  /** Every known ZIP but Cortland's starts with "14". */
  lemma OtherZipsStart14(zip: string)
    requires zip in Zips && zip != "13045"
    ensures |zip| == 5 && AllDigits(zip) && zip[0] == '1' && zip[1] == '4'
  {
  }

  /** The lookup key `item.toLowerCase().trim()`. */
  function ItemKey(item: string): string {
    Trim(ToLower(item))
  }

  /** `BASE_PRICES[key] || 3.99`. */
  function BaseFor(key: string): real {
    if key in BasePrices && BasePrices[key] != 0.0 then BasePrices[key] else UnknownBasePrice
  }

  /** A known item keeps its table price (none is 0); any other key is
      priced from 3.99. */
  lemma BaseForSpec(key: string)
    ensures key in BasePrices ==> BaseFor(key) == BasePrices[key]
    ensures key !in BasePrices ==> BaseFor(key) == 3.99
  {
  }

  /** `STORES[zip] || 'Local Grocery'`. */
  function StoreOf(zip: string): string {
    if zip in Stores && Stores[zip] != "" then Stores[zip] else FallbackStore
  }

  /** `jitter(basePrice * zipData.priceMult, key + zip)`. */
  function PriceOfKey(key: string, zip: string): real
    requires zip in Zips
  {
    Jitter(BaseFor(key) * Zips[zip].priceMult, key + zip)
  }

  /** The mock price of one item in a known ZIP. */
  function PriceOf(item: string, zip: string): real
    requires zip in Zips
  {
    PriceOfKey(ItemKey(item), zip)
  }

  /** The mock price of any item in a known ZIP, as a function value. */
  function PriceFn(zip: string): string --> real {
    (item: string) requires zip in Zips => PriceOf(item, zip)
  }

  /** The price `f` charges for each item of `items`, duplicates included. */
  function MapPrices(items: seq<string>, f: string --> real): (ps: seq<real>)
    requires forall x :: f.requires(x)
    ensures |ps| == |items|
    ensures forall i :: 0 <= i < |items| ==> ps[i] == f(items[i])
  {
    if items == [] then [] else MapPrices(items[..|items| - 1], f) + [f(items[|items| - 1])]
  }

  /** The mock price of each requested item, duplicates included. */
  function ItemPrices(items: seq<string>, zip: string): (ps: seq<real>)
    requires zip in Zips
    ensures |ps| == |items|
  {
    if items == [] then [] else ItemPrices(items[..|items| - 1], zip) + [PriceOf(items[|items| - 1], zip)]
  }

  lemma {:induction false} ItemPricesMap(items: seq<string>, zip: string)
    requires zip in Zips
    ensures ItemPrices(items, zip) == MapPrices(items, PriceFn(zip))
  {
    if items != [] {
      ItemPricesMap(items[..|items| - 1], zip);
    }
  }

  lemma ItemPricesAt(items: seq<string>, zip: string)
    requires zip in Zips
    ensures forall i :: 0 <= i < |items| ==> ItemPrices(items, zip)[i] == PriceOf(items[i], zip)
  {
    ItemPricesMap(items, zip);
  }

  /** The object built by `priced[item] = {price, store}` for each item in
      turn, with `prices[i]` charged for `items[i]`. */
  function PricedObject(items: seq<string>, prices: seq<real>, store: string): Obj<PricedItem>
    requires |prices| == |items|
  {
    if items == [] then []
    else
      var n := |items| - 1;
      Put(PricedObject(items[..n], prices[..n], store), items[n], PricedItem(prices[n], store, None))
  }

  /** `getPricesForZip(items, zip)` as a value. */
  function PricesForZip(items: seq<string>, zip: string): Option<ZipEntry>
  {
    if zip !in Zips then None
    else
      var z := Zips[zip];
      var prices := ItemPrices(items, zip);
      Some(ZipEntry(z.neighborhood, z.lat, z.lng, Some(z.medianIncome), None,
                    PricedObject(items, prices, StoreOf(zip)), Round2(Sum(prices)), None))
  }

  /** `getPricesForZip(items, zip)`: null for an unknown ZIP; otherwise the
      ZIP's reference data, one priced entry per item and the rounded total. */
  method GetPricesForZip(items: seq<string>, zip: string) returns (r: Option<ZipEntry>)
    ensures r.None? <==> zip !in Zips
    ensures r == PricesForZip(items, zip)
  {
    if zip !in Zips {
      return None;
    }
    var zipData := Zips[zip];
    var store := StoreOf(zip);
    ghost var prices := ItemPrices(items, zip);
    ItemPricesAt(items, zip);
    var priced: Obj<PricedItem> := [];
    var basketTotal := 0.0;
    for i := 0 to |items|
      invariant priced == PricedObject(items[..i], prices[..i], store)
      invariant basketTotal == Sum(prices[..i])
    {
      var item := items[i];
      var price := PriceOf(item, zip);
      PricedStep(items, prices, store, i);
      priced := Put(priced, item, PricedItem(price, store, None));
      basketTotal := basketTotal + price;
    }
    assert items[..|items|] == items && prices[..|items|] == prices;
    return Some(ZipEntry(zipData.neighborhood, zipData.lat, zipData.lng, Some(zipData.medianIncome), None,
                         priced, Round2(basketTotal), None));
  }

  lemma PricedStep(items: seq<string>, prices: seq<real>, store: string, i: nat)
    requires |prices| == |items| && i < |items|
    ensures PricedObject(items[..i + 1], prices[..i + 1], store)
      == Put(PricedObject(items[..i], prices[..i], store), items[i], PricedItem(prices[i], store, None))
    ensures Sum(prices[..i + 1]) == Sum(prices[..i]) + prices[i]
  {
    assert items[..i + 1][..i] == items[..i];
    assert prices[..i + 1][..i] == prices[..i];
  }

  /** `getAllZips()`: `Object.keys(ZIPS)`. */
  function AllZips(): seq<string> {
    Keys(FromKeys(ZipLiteralOrder))
  }

  /** An object whose keys are set in the given order. */
  function FromKeys(ks: seq<string>): Obj<bool> {
    if ks == [] then [] else Put(FromKeys(ks[..|ks| - 1]), ks[|ks| - 1], true)
  }

  /** Every key of the ZIPS literal is a ZIP table entry and a five-digit
      array-index key. */
  lemma ZipLiteralKeys()
    ensures forall k :: k in ZipLiteralOrder <==> k in Zips
    ensures forall i :: 0 <= i < |ZipLiteralOrder| ==> IsArrayIndex(ZipLiteralOrder[i])
  {
    forall i | 0 <= i < |ZipLiteralOrder|
      ensures IsArrayIndex(ZipLiteralOrder[i])
    {
      FiveDigitIndex(ZipLiteralOrder[i]);
    }
  }

  lemma {:induction false} FromKeysSpec(ks: seq<string>)
    ensures Valid(FromKeys(ks))
    ensures KeySet(FromKeys(ks)) == set k | k in ks
  {
    if ks != [] {
      var init := ks[..|ks| - 1];
      FromKeysSpec(init);
      PutValid(FromKeys(init), ks[|ks| - 1], true);
      PutKeys(FromKeys(init), ks[|ks| - 1], true);
      assert ks == init + [ks[|ks| - 1]];
    }
  }

  /** `getAllZips()` lists each known ZIP exactly once, in ascending numeric
      order rather than in the order the table is written. */
  lemma AllZipsSpec()
    ensures forall z :: z in AllZips() <==> z in Zips
    ensures forall i, j :: 0 <= i < j < |AllZips()| ==> AllZips()[i] != AllZips()[j]
    ensures forall i :: 0 <= i < |AllZips()| ==> IsArrayIndex(AllZips()[i])
    ensures forall i, j :: 0 <= i < j < |AllZips()| ==> IndexBefore(AllZips()[i], AllZips()[j])
  {
    var o := FromKeys(ZipLiteralOrder);
    FromKeysSpec(ZipLiteralOrder);
    ZipLiteralKeys();
    forall z
      ensures z in AllZips() <==> z in Zips
    {
      if z in Zips {
        var p := Position(o, z);
        assert AllZips()[p] == z;
      }
      if z in AllZips() {
        var i :| 0 <= i < |o| && o[i].key == z;
        KeyAt(o, i);
      }
    }
    forall i | 0 <= i < |AllZips()|
      ensures IsArrayIndex(AllZips()[i])
    {
      KeyAt(o, i);
      assert o[i].key in ZipLiteralOrder;
    }
    forall i, j | 0 <= i < j < |AllZips()|
      ensures IndexBefore(AllZips()[i], AllZips()[j])
    {
      KeyAt(o, j);
      assert o[j].key in ZipLiteralOrder;
      IndexKeysAscending(o, i, j);
    }
  }

  /** Every known ZIP has a named store, so the 'Local Grocery' fallback is
      never used for a ZIP that has prices. */
  lemma KnownZipHasStore(zip: string)
    requires zip in Zips
    ensures zip in Stores && StoreOf(zip) == Stores[zip]
  {
  }

  /** `priced[item] = ...` keeps one entry per distinct item name; when an
      item's price depends only on its name, each entry holds that price. */
  lemma {:induction false} PricedObjectSpec(items: seq<string>, prices: seq<real>, store: string)
    requires |prices| == |items|
    requires forall i, j :: 0 <= i < |items| && 0 <= j < |items| && items[i] == items[j] ==> prices[i] == prices[j]
    ensures Valid(PricedObject(items, prices, store))
    ensures |PricedObject(items, prices, store)| <= |items|
    ensures forall k :: HasKey(PricedObject(items, prices, store), k) <==> k in items
    ensures forall i :: 0 <= i < |items| ==>
      Get(PricedObject(items, prices, store), items[i]) == Some(PricedItem(prices[i], store, None))
  {
    if items != [] {
      var n := |items| - 1;
      var v := PricedItem(prices[n], store, None);
      var o := PricedObject(items[..n], prices[..n], store);
      PricedObjectSpec(items[..n], prices[..n], store);
      PutValid(o, items[n], v);
      PutKeys(o, items[n], v);
      PutGet(o, items[n], v);
      assert items == items[..n] + [items[n]];
      forall i | 0 <= i < |items|
        ensures Get(Put(o, items[n], v), items[i]) == Some(PricedItem(prices[i], store, None))
      {
        if items[i] != items[n] {
          PutGetOther(o, items[n], v, items[i]);
          assert items[i] == items[..n][i];
        }
      }
    }
  }

  /** With distinct, non-numeric item names the object lists the items in
      request order, each with its own price. */
  lemma {:induction false} PricedObjectInOrder(items: seq<string>, prices: seq<real>, store: string)
    requires |prices| == |items|
    requires forall i, j :: 0 <= i < j < |items| ==> items[i] != items[j]
    requires forall i :: 0 <= i < |items| ==> !IsArrayIndex(items[i])
    ensures PricedObject(items, prices, store) == seq(|items|, i requires 0 <= i < |items| => Prop(items[i], PricedItem(prices[i], store, None)))
  {
    if items != [] {
      var n := |items| - 1;
      var o := PricedObject(items[..n], prices[..n], store);
      PricedObjectInOrder(items[..n], prices[..n], store);
      PricedObjectSpec(items[..n], prices[..n], store);
      assert !HasKey(o, items[n]);
      PutAppends(o, items[n], PricedItem(prices[n], store, None));
    }
  }

  /** The mock prices depend on the item name only. */
  lemma ItemPricesConsistent(items: seq<string>, zip: string)
    requires zip in Zips
    ensures forall i, j :: 0 <= i < |items| && 0 <= j < |items| && items[i] == items[j] ==>
      ItemPrices(items, zip)[i] == ItemPrices(items, zip)[j]
  {
    ItemPricesMap(items, zip);
  }

  /** For distinct, non-numeric item names the mock basket total is the
      rounded sum of the prices listed in the `items` object. */
  lemma MockTotalMatchesListedPrices(items: seq<string>, zip: string)
    requires zip in Zips
    requires forall i, j :: 0 <= i < j < |items| ==> items[i] != items[j]
    requires forall i :: 0 <= i < |items| ==> !IsArrayIndex(items[i])
    ensures PricesForZip(items, zip).Some?
    ensures Round2(Sum(ListedPrices(PricesForZip(items, zip).value.items))) == PricesForZip(items, zip).value.basketTotal
  {
    var prices := ItemPrices(items, zip);
    PricedObjectInOrder(items, prices, StoreOf(zip));
    assert ListedPrices(PricedObject(items, prices, StoreOf(zip))) == prices;
  }

  /** A repeated item is listed once but charged twice in the basket total. */
  lemma RepeatedItemChargedTwice(item: string, zip: string)
    requires zip in Zips
    ensures |PricesForZip([item, item], zip).value.items| == 1
    ensures Sum(ItemPrices([item, item], zip)) == 2.0 * PriceOf(item, zip)
  {
    var f := PriceFn(zip);
    ItemPricesMap([item, item], zip);
    var prices := MapPrices([item, item], f);
    assert prices == [f(item), f(item)];
    RepeatedListedOnce(item, f(item), StoreOf(zip));
  }

  /** Setting the same key twice leaves one entry, while the sum counts both
      prices. */
  lemma RepeatedListedOnce(item: string, p: real, store: string)
    ensures |PricedObject([item, item], [p, p], store)| == 1
    ensures Sum([p, p]) == 2.0 * p
  {
    assert [item, item][..1] == [item] && [item][..0] == [];
    assert [p, p][..1] == [p] && [p][..0] == [];
    var v := PricedItem(p, store, None);
    assert PricedObject([item], [p], store) == [Prop(item, v)];
    assert Sum([p]) == p;
  }

  /** Item names that differ only in case and surrounding white space get the
      same mock price. */
  lemma SameKeySamePrice(a: string, b: string, zip: string)
    requires zip in Zips
    requires Clean(a) == Clean(b)
    ensures PriceOf(a, zip) == PriceOf(b, zip)
  {
    LowerTrimCommute(a);
    LowerTrimCommute(b);
    assert ItemKey(a) == ItemKey(b);
  }

  /** In a known ZIP every requested item appears under its own spelling,
      priced by `PriceOf` at the ZIP's named store, and nothing else appears. */
  lemma MockItemsSpec(items: seq<string>, zip: string)
    requires zip in Zips
    ensures PricesForZip(items, zip).Some?
    ensures forall k :: HasKey(PricesForZip(items, zip).value.items, k) <==> k in items
    ensures forall i :: 0 <= i < |items| ==>
      Get(PricesForZip(items, zip).value.items, items[i]) == Some(PricedItem(PriceOf(items[i], zip), Stores[zip], None))
  {
    var prices := ItemPrices(items, zip);
    KnownZipHasStore(zip);
    ItemPricesConsistent(items, zip);
    ItemPricesAt(items, zip);
    PricedObjectSpec(items, prices, StoreOf(zip));
  }

  /** The location and income come from the ZIP table, and the total is the
      rounded sum of the price charged for each requested item, duplicates
      included. */
  lemma MockEntryFields(items: seq<string>, zip: string)
    requires zip in Zips
    ensures PricesForZip(items, zip).Some?
    ensures var e := PricesForZip(items, zip).value;
      && e.neighborhood == Zips[zip].neighborhood && e.lat == Zips[zip].lat && e.lng == Zips[zip].lng
      && e.medianIncome == Some(Zips[zip].medianIncome)
      && e.basketTotal == Round2(Sum(MapPrices(items, PriceFn(zip))))
  {
    ItemPricesMap(items, zip);
  }
}
