/** The body of the `GET /api/prices?items=...&zip=...` handler of
    server/routes/prices.js: parse the item list, answer from the shared TTL
    cache when it can, and otherwise price every known ZIP with the mock
    source, home ZIP first, and cache the response for 15 minutes. */
module PricesRoute {
  import opened Wrappers
  import opened JsString
  import opened JsObject
  import opened StringSort
  import opened TtlCache
  import opened Mock
  import opened Snapshot
  import opened Seqs

  /** A query-string parameter: absent, a single string, or something that
      is not a string (a repeated or nested parameter). */
  datatype Param = Missing | Text(s: string) | NotText

  /** The response body `{homeZip, items, source, pricesByZip}`. */
  datatype Response = Response(homeZip: string, items: seq<string>, source: string, pricesByZip: Obj<ZipEntry>)

  /** What the handler sends: a JSON body with status 200, or an error status
      with `{error}`. */
  datatype Reply = Ok200(body: Response) | Failure(status: int, error: string)

  const DefaultHomeZip: string := "14850"
  const NoItemsError: string := "No items provided"
  const RouteError: string := "Failed to fetch prices"
  const MockSource: string := "mock"

  // ---------------------------------------------------------------------
  // Parsing the query

  /** `.map((s) => s.trim())`. */
  function TrimEach(parts: seq<string>): (r: seq<string>)
    ensures |r| == |parts|
    ensures forall i :: 0 <= i < |parts| ==> r[i] == Trim(parts[i])
  {
    Map(Trim, parts)
  }

  /** `.filter(Boolean)` on strings: drops the empty ones, keeps the order. */
  function DropEmpty(parts: seq<string>): (r: seq<string>)
    ensures |r| <= |parts|
    ensures forall x :: x in r <==> x in parts && x != ""
    ensures multiset(r) == multiset(parts)["" := 0]
  {
    if parts == [] then []
    else
      assert parts == [parts[0]] + parts[1..];
      if parts[0] == "" then DropEmpty(parts[1..])
      else [parts[0]] + DropEmpty(parts[1..])
  }

  /** Filtering works piece by piece, so the kept pieces stay in their order. */
  lemma {:induction false} DropEmptyAppend(a: seq<string>, b: seq<string>)
    ensures DropEmpty(a + b) == DropEmpty(a) + DropEmpty(b)
  {
    if a != [] {
      assert (a + b)[1..] == a[1..] + b;
      assert (a + b)[0] == a[0];
      DropEmptyAppend(a[1..], b);
    } else {
      assert a + b == b;
    }
  }

  /** `itemsRaw.split(',').map(trim).filter(Boolean)`. */
  function ParseItems(raw: string): seq<string> {
    DropEmpty(TrimEach(Split(raw, ',')))
  }

  /** `req.query.items || ''`; only a string can be split. */
  function RawItems(p: Param): string
    requires !p.NotText?
  {
    if p.Text? then p.s else ""
  }

  /** `req.query.zip || '14850'`. */
  function HomeZipOf(zipParam: Option<string>): string {
    if zipParam.Some? && zipParam.value != "" then zipParam.value else DefaultHomeZip
  }

  /** Every parsed item is non-empty, has no white space at either end and
      contains no comma. */
  lemma ParseItemsWellFormed(raw: string)
    ensures forall i :: 0 <= i < |ParseItems(raw)| ==>
      var x := ParseItems(raw)[i]; x != "" && IsTrimmed(x) && ',' !in x
  {
    var pieces := Split(raw, ',');
    var trimmed := TrimEach(pieces);
    forall i | 0 <= i < |ParseItems(raw)|
      ensures var x := ParseItems(raw)[i]; x != "" && IsTrimmed(x) && ',' !in x
    {
      var x := ParseItems(raw)[i];
      assert x in ParseItems(raw);
      assert x in trimmed;
      var k :| 0 <= k < |trimmed| && trimmed[k] == x;
      TrimSlice(pieces[k], ',');
    }
  }

  /** Trimming keeps a string free of a character it did not contain. */
  lemma TrimSlice(s: string, c: char)
    requires c !in s
    ensures IsTrimmed(Trim(s)) && c !in Trim(s)
  {
    TrimSpec(s);
    var t := TrimStart(s);
    assert forall x :: x in t ==> x in s;
    assert forall x :: x in TrimEnd(t) ==> x in t;
  }

  /** Items written as a comma-separated list are read back exactly, in
      order and with repeats kept: nothing is sorted or deduplicated here. */
  lemma {:induction false} ParseItemsJoin(parts: seq<string>)
    requires forall i :: 0 <= i < |parts| ==> parts[i] != "" && IsTrimmed(parts[i]) && ',' !in parts[i]
    ensures ParseItems(Join(parts, ",")) == parts
  {
    if parts == [] {
      assert Split("", ',') == [""];
    } else {
      SplitJoin(parts, ',');
      TrimEachTrimmed(parts);
      DropEmptyNonEmpty(parts);
    }
  }

  lemma TrimEachTrimmed(parts: seq<string>)
    requires forall i :: 0 <= i < |parts| ==> IsTrimmed(parts[i])
    ensures TrimEach(parts) == parts
  {
    forall i | 0 <= i < |parts|
      ensures TrimEach(parts)[i] == parts[i]
    {
      TrimOfTrimmed(parts[i]);
    }
  }

  lemma {:induction false} DropEmptyNonEmpty(parts: seq<string>)
    requires forall i :: 0 <= i < |parts| ==> parts[i] != ""
    ensures DropEmpty(parts) == parts
  {
    if parts != [] {
      DropEmptyNonEmpty(parts[1..]);
    }
  }

  // ---------------------------------------------------------------------
  // The cache key

  /** The key as the handler writes it:
      `'prices:' + homeZip + ':' + items.sort().join(',')`. */
  function CacheKeyText(homeZip: string, items: seq<string>): string {
    "prices:" + homeZip + ":" + Join(Sort(items), ",")
  }

  /** Reordering the items does not change the written key. */
  lemma CacheKeyTextPermutation(homeZip: string, a: seq<string>, b: seq<string>)
    requires multiset(a) == multiset(b)
    ensures CacheKeyText(homeZip, a) == CacheKeyText(homeZip, b)
  {
    SortPermutationInvariant(a, b);
  }

  /** The written key is ambiguous: a home ZIP "14850:x" with the item
      "milk" and the home ZIP "14850" with the item "x:milk" share a key, so
      the second request is answered with the first one's response. */
  lemma CacheKeyTextCollides()
    ensures CacheKeyText("14850:x", ["milk"]) == CacheKeyText("14850", ["x:milk"])
    ensures RequestKey("14850:x", Sort(["milk"])) != RequestKey("14850", Sort(["x:milk"]))
  {
    assert Sort(["milk"]) == ["milk"];
    assert Sort(["x:milk"]) == ["x:milk"];
    assert "prices:" + "14850:x" + ":" + "milk" == "prices:" + "14850" + ":" + "x:milk";
  }

  /** The cache key as a structured value: the home ZIP and the sorted items
      (what a key such as `JSON.stringify([homeZip, items])` encodes). */
  datatype RequestKey = RequestKey(homeZip: string, items: seq<string>)

  function KeyOf(homeZip: string, items: seq<string>): RequestKey {
    RequestKey(homeZip, Sort(items))
  }

  /** Two requests share a key exactly when they have the same home ZIP and
      the same items up to order. */
  lemma KeyOfIdentifiesRequest(zipA: string, a: seq<string>, zipB: string, b: seq<string>)
    ensures KeyOf(zipA, a) == KeyOf(zipB, b) <==> zipA == zipB && multiset(a) == multiset(b)
  {
    if multiset(a) == multiset(b) {
      SortPermutationInvariant(a, b);
    }
  }

  // ---------------------------------------------------------------------
  // Building the response

  /** `allZips.filter((z) => z !== x)`. */
  function Without(s: seq<string>, x: string): (r: seq<string>)
    ensures |r| <= |s|
    ensures forall y :: y in r <==> y in s && y != x
  {
    if s == [] then []
    else if s[0] == x then Without(s[1..], x)
    else [s[0]] + Without(s[1..], x)
  }

  /** `[homeZip, ...allZips.filter((z) => z !== homeZip)]`. */
  function ZipOrder(homeZip: string): seq<string> {
    [homeZip] + Without(AllZips(), homeZip)
  }

  /** The home ZIP comes first and only there; the others are the known ZIPs. */
  lemma ZipOrderSpec(homeZip: string)
    ensures ZipOrder(homeZip)[0] == homeZip
    ensures forall i :: 0 < i < |ZipOrder(homeZip)| ==> ZipOrder(homeZip)[i] != homeZip
    ensures forall z :: z in ZipOrder(homeZip) <==> z == homeZip || z in Zips
  {
    AllZipsSpec();
    var rest := Without(AllZips(), homeZip);
    forall i | 0 < i < |ZipOrder(homeZip)|
      ensures ZipOrder(homeZip)[i] != homeZip
    {
      assert ZipOrder(homeZip)[i] == rest[i - 1];
      assert rest[i - 1] in rest;
    }
  }

  /** The mock result for each ZIP of one request. */
  function ResultFn(items: seq<string>): string -> Option<ZipEntry> {
    zip => PricesForZip(items, zip)
  }

  /** `pricesByZip` after the loop over `order`: a ZIP is set when its
      result is non-null. */
  function Collect(order: seq<string>, result: string -> Option<ZipEntry>): Obj<ZipEntry> {
    if order == [] then []
    else
      var n := |order| - 1;
      var acc := Collect(order[..n], result);
      if result(order[n]).Some? then Put(acc, order[n], result(order[n]).value) else acc
  }

  /** `pricesByZip` holds exactly the ZIPs of `order` with a non-null result,
      each with that result. */
  lemma {:induction false} CollectSpec(order: seq<string>, result: string -> Option<ZipEntry>)
    ensures Valid(Collect(order, result))
    ensures forall z :: HasKey(Collect(order, result), z) <==> z in order && result(z).Some?
    ensures forall z :: z in order ==> Get(Collect(order, result), z) == result(z)
  {
    if order != [] {
      var n := |order| - 1;
      var acc := Collect(order[..n], result);
      CollectSpec(order[..n], result);
      assert order == order[..n] + [order[n]];
      var r := result(order[n]);
      if r.Some? {
        PutValid(acc, order[n], r.value);
        PutKeys(acc, order[n], r.value);
        PutGet(acc, order[n], r.value);
        forall z | z != order[n]
          ensures Get(Put(acc, order[n], r.value), z) == Get(acc, z)
        {
          PutGetOther(acc, order[n], r.value, z);
        }
      }
    }
  }

  /** The response built on a cache miss. */
  function FreshResponse(key: RequestKey): Response {
    Response(key.homeZip, key.items, MockSource, Collect(ZipOrder(key.homeZip), ResultFn(key.items)))
  }

  /** A fresh response lists the items sorted, keeps every requested item,
      and prices exactly the known ZIPs (so an unknown home ZIP is absent). */
  lemma FreshResponseSpec(homeZip: string, items: seq<string>)
    ensures var r := FreshResponse(KeyOf(homeZip, items));
      && r.homeZip == homeZip && r.source == "mock"
      && Sorted(r.items) && multiset(r.items) == multiset(items)
      && Valid(r.pricesByZip)
      && (forall z :: HasKey(r.pricesByZip, z) <==> z in Zips)
      && (forall z :: z in Zips ==> Get(r.pricesByZip, z) == PricesForZip(Sort(items), z))
      && (homeZip !in Zips ==> !HasKey(r.pricesByZip, homeZip))
  {
    var order := ZipOrder(homeZip);
    var f := ResultFn(Sort(items));
    ZipOrderSpec(homeZip);
    CollectSpec(order, f);
    assert forall z :: f(z).Some? <==> z in Zips;
  }

  // ---------------------------------------------------------------------
  // The handler

  lemma CollectStep(order: seq<string>, result: string -> Option<ZipEntry>, i: nat)
    requires i < |order|
    ensures var acc := Collect(order[..i], result);
      Collect(order[..i + 1], result) == if result(order[i]).Some? then Put(acc, order[i], result(order[i]).value) else acc
  {
    assert order[..i + 1][..i] == order[..i];
  }

  /** The loop over `zipOrder`, filling `pricesByZip` with every non-null
      mock result. */
  method CollectPricesByZip(homeZip: string, items: seq<string>) returns (pricesByZip: Obj<ZipEntry>)
    ensures pricesByZip == Collect(ZipOrder(homeZip), ResultFn(items))
  {
    pricesByZip := [];
    var allZips := AllZips();
    var zipOrder := [homeZip] + Without(allZips, homeZip);
    for i := 0 to |zipOrder|
      invariant pricesByZip == Collect(zipOrder[..i], ResultFn(items))
    {
      var zip := zipOrder[i];
      var result := GetPricesForZip(items, zip);
      CollectStep(zipOrder, ResultFn(items), i);
      if result.Some? {
        pricesByZip := Put(pricesByZip, zip, result.value);
      }
    }
    assert zipOrder[..|zipOrder|] == zipOrder;
  }

  /** The request as the handler reads it before the cache: a reply when it
      is answered at once, else the home ZIP and the parsed items. */
  datatype Parsed = Answered(reply: Reply) | Accepted(homeZip: string, items: seq<string>)

  /** A non-string `items` makes `split` throw, which the catch turns into a
      500; an empty list is a 400; otherwise the home ZIP and the items. */
  function ParseRequest(itemsParam: Param, zipParam: Option<string>): (r: Parsed)
    ensures itemsParam.NotText? ==> r == Answered(Failure(500, RouteError))
    ensures !itemsParam.NotText? && ParseItems(RawItems(itemsParam)) == [] ==> r == Answered(Failure(400, NoItemsError))
    ensures !itemsParam.NotText? && ParseItems(RawItems(itemsParam)) != [] ==>
      r == Accepted(HomeZipOf(zipParam), ParseItems(RawItems(itemsParam)))
  {
    if itemsParam.NotText? then Answered(Failure(500, RouteError))
    else
      var items := ParseItems(if itemsParam.Text? then itemsParam.s else "");
      if |items| == 0 then Answered(Failure(400, NoItemsError))
      else Accepted(if zipParam.Some? && zipParam.value != "" then zipParam.value else DefaultHomeZip, items)
  }

  /** The cache step under `cacheKey`: a live cached response is returned
      as it is; otherwise the response for `key` is built, cached for 15
      minutes and returned. */
  method Serve<K(==)>(cache: Cache<K, Response>, cacheKey: K, key: RequestKey, now: int) returns (reply: Reply)
    modifies cache
    ensures var cached := Lookup(old(cache.store), cacheKey, now);
      if cached.Some? then
        reply == Ok200(cached.value) && cache.store == old(cache.store)
      else
        reply == Ok200(FreshResponse(key))
        && cache.store == Stored(AfterLookup(old(cache.store), cacheKey, now), cacheKey, Some(FreshResponse(key)), DefaultTtlMs, now)
  {
    var hit := cache.Has(cacheKey, now);
    if hit {
      var cached := cache.Get(cacheKey, now);
      return Ok200(cached.value);
    }
    var pricesByZip := CollectPricesByZip(key.homeZip, key.items);
    var response := Response(key.homeZip, key.items, MockSource, pricesByZip);
    cache.Set(cacheKey, Some(response), now, 15 * 60 * 1000);
    return Ok200(response);
  }

  /** The handler body as written: the cache is keyed by the text
      `prices:<zip>:<sorted items joined by commas>`. */
  method HandleGet(cache: Cache<string, Response>, itemsParam: Param, zipParam: Option<string>, now: int)
    returns (reply: Reply)
    modifies cache
    ensures ParseRequest(itemsParam, zipParam).Answered? ==>
      reply == ParseRequest(itemsParam, zipParam).reply && cache.store == old(cache.store)
    ensures ParseRequest(itemsParam, zipParam).Accepted? ==>
      var req := ParseRequest(itemsParam, zipParam);
      var text := CacheKeyText(req.homeZip, req.items);
      var cached := Lookup(old(cache.store), text, now);
      if cached.Some? then
        reply == Ok200(cached.value) && cache.store == old(cache.store)
      else
        reply == Ok200(FreshResponse(KeyOf(req.homeZip, req.items)))
        && cache.store == Stored(AfterLookup(old(cache.store), text, now), text,
             Some(FreshResponse(KeyOf(req.homeZip, req.items))), DefaultTtlMs, now)
  {
    var req := ParseRequest(itemsParam, zipParam);
    if req.Answered? {
      return req.reply;
    }
    reply := Serve(cache, CacheKeyText(req.homeZip, req.items), KeyOf(req.homeZip, req.items), now);
  }

  /** The handler body with the cache keyed by the request itself, as
      intended. */
  method HandleGetKeyed(cache: Cache<RequestKey, Response>, itemsParam: Param, zipParam: Option<string>, now: int)
    returns (reply: Reply)
    modifies cache
    ensures ParseRequest(itemsParam, zipParam).Answered? ==>
      reply == ParseRequest(itemsParam, zipParam).reply && cache.store == old(cache.store)
    ensures ParseRequest(itemsParam, zipParam).Accepted? ==>
      var req := ParseRequest(itemsParam, zipParam);
      var key := KeyOf(req.homeZip, req.items);
      var cached := Lookup(old(cache.store), key, now);
      if cached.Some? then
        reply == Ok200(cached.value) && cache.store == old(cache.store)
      else
        reply == Ok200(FreshResponse(key))
        && cache.store == Stored(AfterLookup(old(cache.store), key, now), key, Some(FreshResponse(key)), DefaultTtlMs, now)
  {
    var req := ParseRequest(itemsParam, zipParam);
    if req.Answered? {
      return req.reply;
    }
    reply := Serve(cache, KeyOf(req.homeZip, req.items), KeyOf(req.homeZip, req.items), now);
  }

  /** As written, once zip "14850:x" with item "milk" is cached, the request
      for zip "14850" with item "x:milk" reads that entry ... */
  lemma CollidingRequestAnsweredFromCache(store: map<string, Entry<Response>>, first: Response, t: int)
    ensures Lookup(Stored(store, CacheKeyText("14850:x", ["milk"]), Some(first), DefaultTtlMs, t),
                   CacheKeyText("14850", ["x:milk"]), t) == Some(first)
  {
    CacheKeyTextCollides();
  }

  /** ... although the response cached there is for another home ZIP. */
  lemma CollidingResponsesDiffer()
    ensures FreshResponse(KeyOf("14850:x", ["milk"])) != FreshResponse(KeyOf("14850", ["x:milk"]))
  {
    var a := KeyOf("14850:x", ["milk"]);
    var b := KeyOf("14850", ["x:milk"]);
    assert FreshResponse(a).homeZip == "14850:x" && FreshResponse(b).homeZip == "14850";
  }

  /** Keyed by the request, caching the first request leaves the second
      one's lookup as it was. */
  lemma KeyedRequestsKeptApart(store: map<RequestKey, Entry<Response>>, first: Response, t: int)
    ensures Lookup(Stored(store, KeyOf("14850:x", ["milk"]), Some(first), DefaultTtlMs, t), KeyOf("14850", ["x:milk"]), t)
      == Lookup(store, KeyOf("14850", ["x:milk"]), t)
  {
    KeyOfIdentifiesRequest("14850:x", ["milk"], "14850", ["x:milk"]);
  }
}
