/** The Instacart Developer Platform client of
    server/services/instacart.js: one catalogue search per item, up to three
    products kept from each successful reply, each normalised with field
    fallbacks. */
module Instacart {
  import opened Wrappers
  import opened JsNumber
  import opened Actor
  import opened Seqs

  const KeyError: string := "INSTACART_API_KEY not set — skipping Instacart IDP"
  const NoResultsError: string := "Instacart IDP returned no results"
  const PerItem: nat := 3

  /** A JSON scalar the catalogue may use for a price. */
  datatype Scalar = Num(n: real) | Str(s: string)

  /** Truthiness of an optional scalar: absent, 0 and "" are falsy. */
  predicate TruthyScalar(v: Option<Scalar>) {
    v.Some? && (v.value.Num? ==> v.value.n != 0.0) && (v.value.Str? ==> v.value.s != "")
  }

  /** `parseFloat(v)`: a number reads as itself, a string is parsed; None is NaN. */
  function ParseScalar(v: Scalar): Option<real> {
    match v
    case Num(n) => Some(n)
    case Str(s) => ParseFloat(s)
  }

  /** One catalogue product. */
  datatype CatalogProduct = CatalogProduct(
    name: Option<string>,
    title: Option<string>,
    price: Option<Scalar>,
    unitPrice: Option<Scalar>,
    unit: Option<string>,
    size: Option<string>,
    retailerName: Option<string>,
    store: Option<string>,
    imageUrl: Option<string>,
    thumbnail: Option<string>)

  /** The record pushed for one product; a price of None is NaN. */
  datatype Listing = Listing(name: string, price: Option<real>, unit: string, store: string, image: Option<string>)

  /** How the search for one item ended: a non-ok HTTP status, a thrown
      error, or a JSON body whose `products` and `items` arrays may be absent. */
  datatype Reply = NotOk(status: int) | Errored(message: string) | Body(products: Option<seq<CatalogProduct>>, items: Option<seq<CatalogProduct>>)

  /** `parseFloat(p.price || p.unit_price || 0)`. */
  function PriceOf(p: CatalogProduct): Option<real> {
    if TruthyScalar(p.price) then ParseScalar(p.price.value)
    else if TruthyScalar(p.unitPrice) then ParseScalar(p.unitPrice.value)
    else Some(0.0)
  }

  /** The record pushed for product `p` of the search for `item`. */
  function ListingOf(item: string, p: CatalogProduct): (r: Listing)
    ensures r.unit != "" && r.store != ""
  {
    Listing(
      Or(Either(p.name, p.title), item),
      PriceOf(p),
      Or(Either(p.unit, p.size), "each"),
      Or(Either(p.retailerName, p.store), "Instacart"),
      var image := Either(p.imageUrl, p.thumbnail); if Truthy(image) then image else None)
  }

  /** The fallbacks: name, title, the item; unit, size, "each"; retailer
      name, store, "Instacart"; image URL, thumbnail, null; and the unit
      price read only when the price is falsy. */
  lemma ListingFallbacks(item: string, p: CatalogProduct)
    ensures var r := ListingOf(item, p);
      && (Truthy(p.name) ==> r.name == p.name.value)
      && (!Truthy(p.name) && Truthy(p.title) ==> r.name == p.title.value)
      && (!Truthy(p.name) && !Truthy(p.title) ==> r.name == item)
      && (Truthy(p.unit) ==> r.unit == p.unit.value)
      && (!Truthy(p.unit) && Truthy(p.size) ==> r.unit == p.size.value)
      && (!Truthy(p.unit) && !Truthy(p.size) ==> r.unit == "each")
      && (Truthy(p.retailerName) ==> r.store == p.retailerName.value)
      && (!Truthy(p.retailerName) && Truthy(p.store) ==> r.store == p.store.value)
      && (!Truthy(p.retailerName) && !Truthy(p.store) ==> r.store == "Instacart")
      && (Truthy(p.imageUrl) ==> r.image == p.imageUrl)
      && (!Truthy(p.imageUrl) && Truthy(p.thumbnail) ==> r.image == p.thumbnail)
      && (!Truthy(p.imageUrl) && !Truthy(p.thumbnail) ==> r.image == None)
      && (TruthyScalar(p.price) ==> r.price == ParseScalar(p.price.value))
      && (!TruthyScalar(p.price) && TruthyScalar(p.unitPrice) ==> r.price == ParseScalar(p.unitPrice.value))
      && (!TruthyScalar(p.price) && !TruthyScalar(p.unitPrice) ==> r.price == Some(0.0))
  {
  }

  /** `(data.products || data.items || []).slice(0, 3)`; an array is truthy
      even when empty. */
  function Candidates(reply: Reply): (ps: seq<CatalogProduct>)
    ensures |ps| <= PerItem
  {
    if !reply.Body? then []
    else
      var all := if reply.products.Some? then reply.products.value
                 else if reply.items.Some? then reply.items.value
                 else [];
      if |all| <= PerItem then all else all[..PerItem]
  }

  /** The records one item's search contributes. */
  function ListingsFor(item: string, reply: Reply): seq<Listing> {
    var ps := Candidates(reply);
    seq(|ps|, k requires 0 <= k < |ps| => ListingOf(item, ps[k]))
  }

  /** An empty `products` array hides `items`, and a failed search
      contributes nothing. */
  lemma CandidateSources(reply: Reply)
    ensures !reply.Body? ==> Candidates(reply) == []
    ensures reply.Body? && reply.products.Some? ==>
      Candidates(reply) == reply.products.value[..if |reply.products.value| <= PerItem then |reply.products.value| else PerItem]
    ensures reply.Body? && reply.products == Some([]) ==> Candidates(reply) == []
    ensures reply.Body? && reply.products.None? && reply.items.Some? ==>
      Candidates(reply) == reply.items.value[..if |reply.items.value| <= PerItem then |reply.items.value| else PerItem]
  {
  }

  /** The records of each item's search, in item order. */
  function Groups(items: seq<string>, replies: seq<Reply>): seq<seq<Listing>>
    requires |replies| == |items|
  {
    Map2(ListingsFor, items, replies)
  }

  /** `results` after the loop over `items`, with `replies[i]` the reply to
      `items[i]`: ordered by item, then by product. */
  function Collected(items: seq<string>, replies: seq<Reply>): seq<Listing>
    requires |replies| == |items|
  {
    Concat(Groups(items, replies))
  }

  /** At most three records per item. */
  lemma CollectedBound(items: seq<string>, replies: seq<Reply>)
    requires |replies| == |items|
    ensures |Collected(items, replies)| <= PerItem * |items|
  {
    ConcatBound(Groups(items, replies), PerItem);
  }

  /** A failed search for one item removes only that item's records. */
  lemma FailureIsolated(items: seq<string>, replies: seq<Reply>, k: nat, status: int)
    requires |replies| == |items| && k < |items|
    ensures Collected(items, replies[k := NotOk(status)])
      == Collected(items[..k], replies[..k]) + Collected(items[k + 1..], replies[k + 1..])
  {
    var before := Groups(items[..k], replies[..k]);
    var after := Groups(items[k + 1..], replies[k + 1..]);
    Map2Update(ListingsFor, items, replies, k, NotOk(status));
    assert ListingsFor(items[k], NotOk(status)) == [];
    ConcatAppend(before + [[]], after);
    ConcatSnoc(before, []);
  }

  lemma CollectedStep(items: seq<string>, replies: seq<Reply>, i: nat)
    requires |replies| == |items| && i < |items|
    ensures Collected(items[..i + 1], replies[..i + 1]) == Collected(items[..i], replies[..i]) + ListingsFor(items[i], replies[i])
  {
    Map2Snoc(ListingsFor, items, replies, i);
    ConcatSnoc(Groups(items[..i], replies[..i]), ListingsFor(items[i], replies[i]));
  }

  /** The inner loop over one successful reply's kept products. */
  method AppendListings(item: string, reply: Reply, results: seq<Listing>) returns (r: seq<Listing>)
    ensures r == results + ListingsFor(item, reply)
  {
    r := results;
    var products := Candidates(reply);
    for k := 0 to |products|
      invariant r == results + ListingsFor(item, reply)[..k]
    {
      assert ListingsFor(item, reply)[..k + 1] == ListingsFor(item, reply)[..k] + [ListingOf(item, products[k])];
      r := r + [ListingOf(item, products[k])];
    }
    assert ListingsFor(item, reply)[..|products|] == ListingsFor(item, reply);
  }

  /** `searchProducts(items, address)`: every product kept from every
      successful reply, or an error when the key is unset or nothing was
      collected. */
  method SearchProducts(keySet: bool, items: seq<string>, replies: seq<Reply>) returns (r: Result<seq<Listing>>)
    requires |replies| == |items|
    ensures !keySet ==> r == Throws(KeyError)
    ensures keySet && Collected(items, replies) == [] ==> r == Throws(NoResultsError)
    ensures keySet && Collected(items, replies) != [] ==> r == Ok(Collected(items, replies))
  {
    if !keySet {
      return Throws(KeyError);
    }
    var results: seq<Listing> := [];
    for i := 0 to |items|
      invariant results == Collected(items[..i], replies[..i])
    {
      var item := items[i];
      var reply := replies[i];
      CollectedStep(items, replies, i);
      if reply.Body? {
        results := AppendListings(item, reply, results);
      }
    }
    assert items[..|items|] == items && replies[..|items|] == replies;
    if |results| == 0 {
      return Throws(NoResultsError);
    }
    return Ok(results);
  }
}
