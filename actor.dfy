/** The records the Instacart scraper actor returns, as read by
    server/services/apify.js and scripts/scrape.js, and the normalised
    product shape `{name, price, unit, store, image}` that both search
    clients return. */
module Actor {
  import opened Wrappers
  import opened JsString
  import opened JsNumber

  /** A string field that may be absent, null or the empty string; the
      sources read such fields through `||`, which skips all three. */
  predicate Truthy(f: Option<string>) {
    f.Some? && f.value != ""
  }

  /** `f || fallback`. */
  function Or(f: Option<string>, fallback: string): (r: string)
    ensures Truthy(f) ==> r == f.value
    ensures !Truthy(f) ==> r == fallback
  {
    if Truthy(f) then f.value else fallback
  }

  /** `f || g` for two optional string fields. */
  function Either(f: Option<string>, g: Option<string>): (r: Option<string>)
    ensures Truthy(r) <==> Truthy(f) || Truthy(g)
    ensures Truthy(f) ==> r == f
  {
    if Truthy(f) then f else g
  }

  /** `price.viewSection.itemCard`. */
  datatype ItemCard = ItemCard(priceString: Option<string>, pricingUnitString: Option<string>)

  /** `price.viewSection`. */
  datatype ViewSection = ViewSection(itemCard: Option<ItemCard>, priceString: Option<string>)

  /** The `price` field of a record: absent, a plain number, or the nested
      object of the GraphQL shape. */
  datatype PriceField = NoPrice | PriceNumber(n: real) | PriceObject(viewSection: Option<ViewSection>)

  /** One record of the actor's dataset. */
  datatype ActorRecord = ActorRecord(
    name: Option<string>,
    priceString: Option<string>,
    price: PriceField,
    size: Option<string>,
    retailerName: Option<string>,
    store: Option<string>,
    imageUrl: Option<string>)

  /** The normalised product both search clients return. */
  datatype Product = Product(name: string, price: real, unit: string, store: string, image: Option<string>)

  /** The dataset a finished run yields: an array of records, or some other
      JSON value. */
  datatype Dataset = NotArray | Records(records: seq<ActorRecord>)

  /** One actor run for one search query: it failed (an HTTP error or a
      status other than SUCCEEDED, which the client throws on) or it
      finished with a dataset. */
  datatype Run = RunFailed(reason: string) | Finished(dataset: Dataset)

  /** `p.price?.viewSection?.itemCard?.priceString`. */
  function CardPriceString(p: ActorRecord): Option<string> {
    if p.price.PriceObject? && p.price.viewSection.Some? && p.price.viewSection.value.itemCard.Some?
    then p.price.viewSection.value.itemCard.value.priceString
    else None
  }

  /** `p.price?.viewSection?.priceString`. */
  function SectionPriceString(p: ActorRecord): Option<string> {
    if p.price.PriceObject? && p.price.viewSection.Some?
    then p.price.viewSection.value.priceString
    else None
  }

  /** `p.price?.viewSection?.itemCard?.pricingUnitString`. */
  function PricingUnitString(p: ActorRecord): Option<string> {
    if p.price.PriceObject? && p.price.viewSection.Some? && p.price.viewSection.value.itemCard.Some?
    then p.price.viewSection.value.itemCard.value.pricingUnitString
    else None
  }

  /** The nested price string: the item card's, else the view section's. */
  function DeepPriceString(p: ActorRecord): Option<string> {
    Either(CardPriceString(p), SectionPriceString(p))
  }

  /** `parseFloat(s.replace(/[^0-9.]/g, ''))`; None is NaN. */
  function ParsePriceText(s: string): (r: Option<real>)
    ensures r.Some? ==> r.value >= 0.0
  {
    KeepNumericParse(s);
    ParseFloat(KeepNumeric(s))
  }

  /** The unit both normalisers use: pricing unit, else size, else "each". */
  function UnitOf(p: ActorRecord): (u: string)
    ensures u != ""
    ensures Truthy(PricingUnitString(p)) ==> u == PricingUnitString(p).value
    ensures !Truthy(PricingUnitString(p)) && Truthy(p.size) ==> u == p.size.value
    ensures !Truthy(PricingUnitString(p)) && !Truthy(p.size) ==> u == "each"
  {
    Or(Either(PricingUnitString(p), p.size), "each")
  }

  /** The store both normalisers use: retailer name, else store, else
      "Instacart". */
  function StoreOf(p: ActorRecord): (s: string)
    ensures s != ""
    ensures Truthy(p.retailerName) ==> s == p.retailerName.value
    ensures !Truthy(p.retailerName) && Truthy(p.store) ==> s == p.store.value
    ensures !Truthy(p.retailerName) && !Truthy(p.store) ==> s == "Instacart"
  {
    Or(Either(p.retailerName, p.store), "Instacart")
  }

  /** `p.imageUrl || null`. */
  function ImageOf(p: ActorRecord): (i: Option<string>)
    ensures i.Some? <==> Truthy(p.imageUrl)
    ensures i.Some? ==> i == p.imageUrl
  {
    if Truthy(p.imageUrl) then p.imageUrl else None
  }
}
