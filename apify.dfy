/** The scraper-actor search client of server/services/apify.js: price
    extraction, the normalising map over a dataset, and the batched
    aggregation that keeps the top product of every search that found one. */
module Apify {
  import opened Wrappers
  import opened JsString
  import opened JsNumber
  import opened Actor
  import opened Seqs

  const TokenError: string := "APIFY_API_TOKEN not set — skipping Apify"
  const NoResultsError: string := "Apify returned no results with prices"
  const BatchSize: nat := 3

  /** `extractPrice`: the top-level price string if it parses, else the
      nested one if it parses, else 0. */
  function ExtractPrice(p: ActorRecord): (n: real)
    ensures n >= 0.0
  {
    if Truthy(p.priceString) && ParsePriceText(p.priceString.value).Some? then
      ParsePriceText(p.priceString.value).value
    else if Truthy(DeepPriceString(p)) && ParsePriceText(DeepPriceString(p).value).Some? then
      ParsePriceText(DeepPriceString(p).value).value
    else 0.0
  }

  /** Which source `extractPrice` takes: a later one only when every
      earlier one is missing or does not parse, and 0 only when none parses. */
  lemma ExtractPriceSources(p: ActorRecord)
    ensures var top := if Truthy(p.priceString) then ParsePriceText(p.priceString.value) else None;
      var deep := if Truthy(DeepPriceString(p)) then ParsePriceText(DeepPriceString(p).value) else None;
      && (top.Some? ==> ExtractPrice(p) == top.value)
      && (top.None? && deep.Some? ==> ExtractPrice(p) == deep.value)
      && (top.None? && deep.None? ==> ExtractPrice(p) == 0.0)
      && (ExtractPrice(p) > 0.0 ==> top.Some? || deep.Some?)
  {
  }

  /** A sign in the price text is stripped before parsing, so "-3" reads as 3. */
  lemma ExtractPriceDropsSign()
    ensures ExtractPrice(ActorRecord(None, Some("-3"), NoPrice, None, None, None, None)) == 3.0
  {
    KeepNumericMinusThree();
    ParseFloatThree();
    assert ParsePriceText("-3") == Some(3.0);
  }

  lemma KeepNumericMinusThree()
    ensures KeepNumeric("-3") == "3"
  {
    assert KeepNumeric("3"[1..]) == [];
  }

  lemma ParseFloatThree()
    ensures ParseFloat("3") == Some(3.0)
  {
    var u := "3";
    assert TrimStart(u) == u;
    DigitThree();
    assert u[1..] == [];
    assert ExponentOf([]) == 0;
  }

  lemma DigitThree()
    ensures LeadingDigits("3") == 1 && "3"[..1] == "3"
    ensures Magnitude("3", [], 0) == 3.0
  {
    var u := "3";
    assert LeadingDigits(u[1..]) == 0;
    assert u[..0] == [];
    assert DigitsValue(u) == 3;
    assert DigitsValue([]) == 0 && Pow10(0) == 1 && Scale(0) == 1.0;
  }

  /** The normalising map of `searchSingle` for one record. */
  function Normalize(p: ActorRecord): (r: Product)
    ensures r.name != "" && r.unit != "" && r.store != "" && r.price >= 0.0
    ensures Truthy(p.name) ==> r.name == p.name.value
    ensures !Truthy(p.name) ==> r.name == "Unknown"
    ensures r.price == ExtractPrice(p) && r.image == ImageOf(p)
  {
    Product(Or(p.name, "Unknown"), ExtractPrice(p), UnitOf(p), StoreOf(p), ImageOf(p))
  }

  /** The unit falls back from the pricing unit to the size to "each", and
      the store from the retailer name to the store to "Instacart". */
  lemma NormalizeFallbacks(p: ActorRecord)
    ensures var r := Normalize(p);
      && (Truthy(PricingUnitString(p)) ==> r.unit == PricingUnitString(p).value)
      && (!Truthy(PricingUnitString(p)) && Truthy(p.size) ==> r.unit == p.size.value)
      && (!Truthy(PricingUnitString(p)) && !Truthy(p.size) ==> r.unit == "each")
      && (Truthy(p.retailerName) ==> r.store == p.retailerName.value)
      && (!Truthy(p.retailerName) && Truthy(p.store) ==> r.store == p.store.value)
      && (!Truthy(p.retailerName) && !Truthy(p.store) ==> r.store == "Instacart")
  {
  }

  /** `(Array.isArray(rawItems) ? rawItems : []).map(...)`. */
  function NormalizeAll(d: Dataset): seq<Product> {
    if d.NotArray? then [] else seq(|d.records|, i requires 0 <= i < |d.records| => Normalize(d.records[i]))
  }

  /** A non-array dataset gives no products; an array gives one product per
      record, in order. */
  lemma NormalizeAllSpec(d: Dataset)
    ensures d.NotArray? ==> NormalizeAll(d) == []
    ensures d.Records? ==> |NormalizeAll(d)| == |d.records|
    ensures d.Records? ==> forall i :: 0 <= i < |d.records| ==> NormalizeAll(d)[i] == Normalize(d.records[i])
  {
  }

  /** What `searchSingle` settles with: rejected on a failed run, else the
      normalised dataset. */
  function SearchSingle(run: Run): (r: Result<seq<Product>>)
    ensures run.RunFailed? <==> r.Throws?
  {
    if run.RunFailed? then Throws(run.reason) else Ok(NormalizeAll(run.dataset))
  }

  /** The one product a settled search contributes: the first of a
      fulfilled, non-empty list. */
  function TopOf(run: Run): Option<Product> {
    var s := SearchSingle(run);
    if s.Ok? && |s.value| > 0 then Some(s.value[0]) else None
  }

  /** A search contributes exactly when it fulfilled with a non-empty list,
      and then contributes the normalised first record. */
  lemma TopOfSpec(run: Run)
    ensures TopOf(run).Some? <==> run.Finished? && run.dataset.Records? && run.dataset.records != []
    ensures TopOf(run).Some? ==> TopOf(run).value == Normalize(run.dataset.records[0])
  {
  }

  /** The contribution of each search, in item order. */
  function Tops(runs: seq<Run>): seq<Option<Product>> {
    Map(TopOf, runs)
  }

  /** The products collected from the searches, in item order. */
  function TopResults(runs: seq<Run>): seq<Product> {
    Present(Tops(runs))
  }

  /** At most one product per search, each the top product of some search,
      and every search with a top product contributes it. */
  lemma TopResultsSpec(runs: seq<Run>)
    ensures |TopResults(runs)| <= |runs|
    ensures forall x :: x in TopResults(runs) <==> exists j :: 0 <= j < |runs| && TopOf(runs[j]) == Some(x)
  {
    var ts := Tops(runs);
    PresentSpec(ts);
    forall x ensures Some(x) in ts <==> exists j :: 0 <= j < |runs| && TopOf(runs[j]) == Some(x) {
      if Some(x) in ts {
        var j :| 0 <= j < |ts| && ts[j] == Some(x);
      }
    }
  }

  /** A rejected search removes only its own contribution: the others'
      products are collected as before. */
  lemma FailureIsolated(runs: seq<Run>, k: nat, reason: string)
    requires k < |runs|
    ensures TopResults(runs[k := RunFailed(reason)]) == TopResults(runs[..k]) + TopResults(runs[k + 1..])
  {
    MapUpdate(TopOf, runs, k, RunFailed(reason));
    assert TopOf(RunFailed(reason)) == None;
    var before := Tops(runs[..k]);
    PresentAppend(before + [None], Tops(runs[k + 1..]));
    PresentSnoc(before, None);
  }

  lemma TopResultsStep(runs: seq<Run>, j: nat)
    requires j < |runs|
    ensures var t := TopOf(runs[j]);
      TopResults(runs[..j + 1]) == TopResults(runs[..j]) + (if t.Some? then [t.value] else [])
  {
    MapSnoc(TopOf, runs, j);
    PresentSnoc(Tops(runs[..j]), TopOf(runs[j]));
  }

  function Min(a: int, b: int): int {
    if a <= b then a else b
  }

  /** The slices `items.slice(i, i + 3)` for i = 0, 3, 6, ... below the length. */
  function Batches<T>(items: seq<T>): seq<seq<T>>
    decreases |items|
  {
    if items == [] then []
    else if |items| <= BatchSize then [items]
    else [items[..BatchSize]] + Batches(items[BatchSize..])
  }

  function Flatten<T>(parts: seq<seq<T>>): seq<T> {
    if parts == [] then [] else parts[0] + Flatten(parts[1..])
  }

  /** The batches hold 1 to 3 items each, the k-th is `items[3k .. 3k+3]`
      cut at the end, and together they are the items in order. */
  lemma BatchesCover<T>(items: seq<T>)
    ensures Flatten(Batches(items)) == items
    ensures |Batches(items)| == (|items| + BatchSize - 1) / BatchSize
    ensures forall k :: 0 <= k < |Batches(items)| ==>
      1 <= |Batches(items)[k]| <= BatchSize
      && Batches(items)[k] == items[BatchSize * k .. Min(BatchSize * k + BatchSize, |items|)]
  {
    BatchesFlatten(items);
    BatchesSlices(items);
  }

  lemma {:induction false} BatchesFlatten<T>(items: seq<T>)
    ensures Flatten(Batches(items)) == items
    decreases |items|
  {
    if |items| > BatchSize {
      BatchesFlatten(items[BatchSize..]);
      assert items == items[..BatchSize] + items[BatchSize..];
    } else if items != [] {
      assert Flatten([items]) == items + Flatten([]);
    }
  }

  lemma {:induction false} BatchesSlices<T>(items: seq<T>)
    ensures |Batches(items)| == (|items| + BatchSize - 1) / BatchSize
    ensures forall k :: 0 <= k < |Batches(items)| ==>
      1 <= |Batches(items)[k]| <= BatchSize
      && Batches(items)[k] == items[BatchSize * k .. Min(BatchSize * k + BatchSize, |items|)]
    decreases |items|
  {
    if |items| > BatchSize {
      var rest := items[BatchSize..];
      BatchesSlices(rest);
      var bs := Batches(items);
      assert bs == [items[..BatchSize]] + Batches(rest);
      forall k | 1 <= k < |bs|
        ensures 1 <= |bs[k]| <= BatchSize
        ensures bs[k] == items[BatchSize * k .. Min(BatchSize * k + BatchSize, |items|)]
      {
        assert bs[k] == Batches(rest)[k - 1];
        BatchSliceShift(items, k);
      }
    }
  }

  lemma BatchSliceShift<T>(items: seq<T>, k: nat)
    requires |items| > BatchSize && k >= 1 && BatchSize * k <= |items|
    ensures var rest := items[BatchSize..];
      rest[BatchSize * (k - 1) .. Min(BatchSize * (k - 1) + BatchSize, |rest|)]
        == items[BatchSize * k .. Min(BatchSize * k + BatchSize, |items|)]
  {
  }

  /** One batch: the settled runs `runs[start..end]` in order, each adding
      its top product when it has one. */
  method CollectBatch(runs: seq<Run>, start: nat, end: nat, results: seq<Product>) returns (r: seq<Product>)
    requires start <= end <= |runs|
    requires results == TopResults(runs[..start])
    ensures r == TopResults(runs[..end])
  {
    r := results;
    for j := start to end
      invariant r == TopResults(runs[..j])
    {
      var top := TopOf(runs[j]);
      TopResultsStep(runs, j);
      if top.Some? {
        r := r + [top.value];
      }
    }
  }

  /** `searchProducts(items, zip, address)`, with `runs[i]` the settled run
      for `items[i]`: batch by batch, the top product of every search that
      found one, or an error when the token is unset or nothing was found. */
  method SearchProducts(tokenSet: bool, items: seq<string>, runs: seq<Run>) returns (r: Result<seq<Product>>)
    requires |runs| == |items|
    ensures !tokenSet ==> r == Throws(TokenError)
    ensures tokenSet && TopResults(runs) == [] ==> r == Throws(NoResultsError)
    ensures tokenSet && TopResults(runs) != [] ==> r == Ok(TopResults(runs))
  {
    if !tokenSet {
      return Throws(TokenError);
    }
    var results: seq<Product> := [];
    var i := 0;
    ghost var k := 0;
    BatchesCover(items);
    while i < |items|
      invariant 0 <= i <= |items| + BatchSize && i == BatchSize * k
      invariant results == TopResults(runs[..Min(i, |items|)])
      decreases |items| - i
    {
      // the k-th batch `items.slice(i, i + 3)`
      assert k < |Batches(items)| && Batches(items)[k] == items[i..Min(i + BatchSize, |items|)];
      results := CollectBatch(runs, i, Min(i + BatchSize, |items|), results);
      i := i + BatchSize;
      k := k + 1;
    }
    assert runs[..|items|] == runs;
    if |results| == 0 {
      return Throws(NoResultsError);
    }
    return Ok(results);
  }
}
