/** The per-ZIP price snapshot that the server, the offline scripts and the
    client pass around (`pricesByZip[zip]`), and the cheapest-ZIP rule that
    the client applies to a `pricesByZip` object. */
module Snapshot {
  import opened Wrappers
  import opened JsObject

  /** Name, image and unit of a product a search found. */
  datatype ProductDetail = ProductDetail(name: string, image: Option<string>, unit: string)

  /** One item's price in one ZIP: `{price, store}` from the mock source, and
      also name, image and unit from a scrape. */
  datatype PricedItem = PricedItem(price: real, store: string, detail: Option<ProductDetail>)

  /** `pricesByZip[zip]`; medianIncome, store and itemCount are present only
      in some sources' records. */
  datatype ZipEntry = ZipEntry(
    neighborhood: string,
    lat: real,
    lng: real,
    medianIncome: Option<int>,
    store: Option<string>,
    items: Obj<PricedItem>,
    basketTotal: real,
    itemCount: Option<int>)

  /** The basket totals of a `pricesByZip` object, in enumeration order. */
  function Totals(o: Obj<ZipEntry>): (ts: seq<real>)
    ensures |ts| == |o|
    ensures forall i :: 0 <= i < |o| ==> ts[i] == o[i].val.basketTotal
  {
    if o == [] then [] else [o[0].val.basketTotal] + Totals(o[1..])
  }

  /** The prices of an `items` object, in enumeration order. */
  function ListedPrices(o: Obj<PricedItem>): (ps: seq<real>)
    ensures |ps| == |o|
    ensures forall i :: 0 <= i < |o| ==> ps[i] == o[i].val.price
  {
    if o == [] then [] else [o[0].val.price] + ListedPrices(o[1..])
  }

  /** The scan `if (total < cheapestTotal) { cheapestTotal = total; ... }`
      from cheapestTotal = Infinity: the position of the first smallest total. */
  function CheapestIndex(ts: seq<real>): (r: Option<nat>)
    ensures r.Some? <==> ts != []
    ensures r.Some? ==> r.value < |ts|
    ensures r.Some? ==> forall j :: 0 <= j < |ts| ==> ts[r.value] <= ts[j]
    ensures r.Some? ==> forall j :: 0 <= j < r.value ==> ts[j] > ts[r.value]
  {
    if ts == [] then None
    else
      var b := CheapestIndex(ts[..|ts| - 1]);
      if b.None? || ts[|ts| - 1] < ts[b.value] then Some(|ts| - 1) else b
  }

  /** The ZIP at the first smallest total, if any. */
  function CheapestZip(o: Obj<ZipEntry>): Option<string> {
    var b := CheapestIndex(Totals(o));
    if b.Some? then Some(o[b.value].key) else None
  }

  /** The first smallest total, if any. */
  function CheapestTotal(o: Obj<ZipEntry>): Option<real> {
    var b := CheapestIndex(Totals(o));
    if b.Some? then Some(o[b.value].val.basketTotal) else None
  }

  lemma CheapestStep(ts: seq<real>, i: nat)
    requires i < |ts|
    ensures var b := CheapestIndex(ts[..i]);
      CheapestIndex(ts[..i + 1]) == if b.None? || ts[i] < ts[b.value] then Some(i) else b
  {
    assert ts[..i + 1][..i] == ts[..i];
  }

  /** The `Object.entries(pricesByZip).forEach` scan for the cheapest ZIP,
      with `cheapestTotal = Infinity` written as None: the ZIP and total at
      the first smallest total, and null for an empty object. */
  method ScanCheapest(o: Obj<ZipEntry>) returns (cheapestZip: Option<string>, cheapestTotal: Option<real>)
    ensures cheapestZip == CheapestZip(o) && cheapestTotal == CheapestTotal(o)
  {
    cheapestZip := None;
    cheapestTotal := None;
    ghost var best: Option<nat> := None;
    for i := 0 to |o|
      invariant best == CheapestIndex(Totals(o)[..i])
      invariant best.Some? ==> (best.value < i
        && cheapestZip == Some(o[best.value].key) && cheapestTotal == Some(o[best.value].val.basketTotal))
      invariant best.None? ==> cheapestZip.None? && cheapestTotal.None?
    {
      var zip := o[i].key;
      var total := o[i].val.basketTotal;
      CheapestStep(Totals(o), i);
      if cheapestTotal.None? || total < cheapestTotal.value {
        cheapestTotal := Some(total);
        cheapestZip := Some(zip);
        best := Some(i);
      }
    }
    assert Totals(o)[..|o|] == Totals(o);
  }
}
