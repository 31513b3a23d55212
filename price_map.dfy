/** The price pins of client/js/map.js: one marker per ZIP of a
    `pricesByZip` object, coloured for the home ZIP, for the cheapest ZIP
    or neither, replacing the markers of the previous call. */
module PriceMap {
  import opened Wrappers
  import opened JsNumber
  import opened JsObject
  import opened Snapshot
  import Mock
  import PricesRoute

  /** The badge class `createPricePin` chooses. */
  datatype PinClass = PinHome | PinCheapest | PinDefault

  /** `isHome ? 'pin-home' : isCheapest ? 'pin-cheapest' : 'pin-default'`. */
  function PinClassOf(isHome: bool, isCheapest: bool): (c: PinClass)
    ensures c == PinHome <==> isHome
    ensures c == PinCheapest <==> !isHome && isCheapest
    ensures c == PinDefault <==> !isHome && !isCheapest
  {
    if isHome then PinHome else if isCheapest then PinCheapest else PinDefault
  }

  /** A marker placed at a ZIP's location. */
  datatype Marker = Marker(zip: string, lat: real, lng: real, pin: PinClass, total: real)

  /** The marker for entry `i`, given the ZIP treated as home and the
      cheapest ZIP found by the scan. */
  function MarkerAt(o: Obj<ZipEntry>, i: nat, home: string, cheapestZip: Option<string>): Marker
    requires i < |o|
  {
    var zip := o[i].key;
    Marker(zip, o[i].val.lat, o[i].val.lng, PinClassOf(zip == home, cheapestZip == Some(zip)), o[i].val.basketTotal)
  }

  /** The markers of the entries, in enumeration order. */
  function MarkersFor(o: Obj<ZipEntry>, home: string, cheapestZip: Option<string>): (ms: seq<Marker>)
    ensures |ms| == |o|
    ensures forall i :: 0 <= i < |o| ==> ms[i] == MarkerAt(o, i, home, cheapestZip)
  {
    seq(|o|, i requires 0 <= i < |o| => MarkerAt(o, i, home, cheapestZip))
  }

  /** The ZIP `plotPrices` treats as home, as written: `Object.keys(pricesByZip)[0]`. */
  function FirstKey(o: Obj<ZipEntry>): string
    requires o != []
  {
    o[0].key
  }

  /** The markers `plotPrices(pricesByZip)` places, as written. */
  function PlottedAsWritten(o: Obj<ZipEntry>): seq<Marker> {
    if o == [] then [] else MarkersFor(o, FirstKey(o), CheapestZip(o))
  }

  /** The markers placed when the home ZIP is passed in, as intended. */
  function Plotted(o: Obj<ZipEntry>, homeZip: string): seq<Marker> {
    MarkersFor(o, homeZip, CheapestZip(o))
  }

  /** In an object whose keys are known mock ZIPs, 13045 enumerates first
      whenever it is present, since it is the smallest of them. */
  lemma LowestZipFirst(o: Obj<ZipEntry>)
    requires Valid(o) && HasKey(o, "13045")
    requires forall z :: HasKey(o, z) ==> z in Mock.Zips
    ensures o != [] && FirstKey(o) == "13045"
  {
    var j := Position(o, "13045");
    if j > 0 {
      var k := o[0].key;
      FiveDigitIndex("13045");
      IndexKeysAscending(o, 0, j);
      KeyAt(o, 0);
      Mock.OtherZipsStart14(k);
      AboveCortland(k);
      assert false;
    }
  }

  /** A five-digit numeral starting with "14" is above 13045. */
  lemma AboveCortland(k: string)
    requires |k| == 5 && AllDigits(k) && k[0] == '1' && k[1] == '4'
    ensures DigitsValue(k) > DigitsValue("13045")
  {
    FiveDigitValue(k);
    FiveDigitValue("13045");
  }

  /** As written, exactly the markers of the first enumerated ZIP are home pins. */
  lemma HomePinIsFirstKey(o: Obj<ZipEntry>)
    requires o != []
    ensures forall i :: 0 <= i < |o| ==> (PlottedAsWritten(o)[i].pin == PinHome <==> o[i].key == FirstKey(o))
  {
  }

  /** As written, the home pin goes to the first enumerated ZIP. The route
      puts the home ZIP first when it builds `pricesByZip`, but every ZIP is
      an integer-like key and so enumerates in ascending numeric order:
      for home 14850 the first key is 13045, which gets the home pin while
      14850 does not. */
  lemma HomePinAsWritten(items: seq<string>)
    ensures var o := PricesRoute.FreshResponse(PricesRoute.KeyOf("14850", items)).pricesByZip;
      && HasKey(o, "14850") && HasKey(o, "13045")
      && o != [] && FirstKey(o) == "13045"
      && PlottedAsWritten(o)[Position(o, "13045")].pin == PinHome
      && PlottedAsWritten(o)[Position(o, "14850")].pin != PinHome
  {
    var o := PricesRoute.FreshResponse(PricesRoute.KeyOf("14850", items)).pricesByZip;
    PricesRoute.FreshResponseSpec("14850", items);
    assert "14850" in Mock.Zips && "13045" in Mock.Zips;
    LowestZipFirst(o);
    HomePinIsFirstKey(o);
  }

  /** With the home ZIP passed in, exactly the home ZIP's marker is a home
      pin, and the cheapest ZIP's marker is a cheapest pin unless it is home. */
  lemma PlottedSpec(o: Obj<ZipEntry>, homeZip: string)
    requires Valid(o)
    ensures |Plotted(o, homeZip)| == |o|
    ensures forall i :: 0 <= i < |o| ==> (Plotted(o, homeZip)[i].pin == PinHome <==> o[i].key == homeZip)
    ensures forall i :: 0 <= i < |o| ==>
      (Plotted(o, homeZip)[i].pin == PinCheapest <==> o[i].key != homeZip && i == CheapestIndex(Totals(o)).value)
    ensures forall i, j :: 0 <= i < j < |o| ==> Plotted(o, homeZip)[i].pin != PinHome || Plotted(o, homeZip)[j].pin != PinHome
  {
    forall i | 0 <= i < |o|
      ensures Plotted(o, homeZip)[i].pin == PinCheapest <==> o[i].key != homeZip && i == CheapestIndex(Totals(o)).value
    {
      var b := CheapestIndex(Totals(o));
      if CheapestZip(o) == Some(o[i].key) && i != b.value {
        assert false;
      }
    }
  }

  /** The map's marker state. `layers` are the markers on the map, `bounds`
      the markers the view was last fitted to. */
  class PriceMapView {
    var layers: seq<Marker>
    var markers: seq<Marker>
    var bounds: Option<seq<Marker>>

    /** Only `plotPrices` adds marker layers, and it keeps them in `markers`. */
    predicate Valid()
      reads this
    {
      layers == markers
    }

    constructor ()
      ensures layers == [] && markers == [] && bounds == None
      ensures Valid()
    {
      layers := [];
      markers := [];
      bounds := None;
    }

    /** `markers.forEach((m) => mapInstance.removeLayer(m)); markers = [];` */
    method ClearMarkers()
      requires Valid()
      modifies this
      ensures layers == [] && markers == [] && bounds == old(bounds)
    {
      var oldMarkers := markers;
      for i := 0 to |oldMarkers|
        invariant layers == oldMarkers[i..]
        invariant markers == oldMarkers && bounds == old(bounds)
      {
        layers := RemoveLayer(layers, oldMarkers[i]);
      }
      markers := [];
    }

    /** `plotPrices(pricesByZip)` as written: the ZIP treated as home is
        the first enumerated key. */
    method PlotPrices(pricesByZip: Obj<ZipEntry>)
      requires Valid()
      modifies this
      ensures markers == PlottedAsWritten(pricesByZip)
      ensures Valid()
      ensures bounds == if markers != [] then Some(markers) else old(bounds)
    {
      var home := if |pricesByZip| > 0 then FirstKey(pricesByZip) else "";
      PlaceMarkers(pricesByZip, home);
    }

    /** `plotPrices` with the requested home ZIP passed in, as intended. */
    method PlotPricesForHome(pricesByZip: Obj<ZipEntry>, homeZip: string)
      requires Valid()
      modifies this
      ensures markers == Plotted(pricesByZip, homeZip)
      ensures Valid()
      ensures bounds == if markers != [] then Some(markers) else old(bounds)
    {
      PlaceMarkers(pricesByZip, homeZip);
    }

    /** The body of `plotPrices` once the home ZIP is chosen: every old
        marker leaves the map, one marker per entry is added in order, and
        the view is fitted only when some marker exists. */
    method PlaceMarkers(pricesByZip: Obj<ZipEntry>, home: string)
      requires Valid()
      modifies this
      ensures markers == MarkersFor(pricesByZip, home, CheapestZip(pricesByZip))
      ensures Valid()
      ensures bounds == if markers != [] then Some(markers) else old(bounds)
    {
      ClearMarkers();
      var cheapestZip, _ := ScanCheapest(pricesByZip);
      ghost var plotted := MarkersFor(pricesByZip, home, cheapestZip);
      for i := 0 to |pricesByZip|
        invariant markers == plotted[..i]
        invariant layers == markers
        invariant bounds == old(bounds)
      {
        var zip := pricesByZip[i].key;
        var data := pricesByZip[i].val;
        var isHome := zip == home;
        var isCheapest := cheapestZip == Some(zip);
        var marker := Marker(zip, data.lat, data.lng, PinClassOf(isHome, isCheapest), data.basketTotal);
        assert marker == MarkerAt(pricesByZip, i, home, cheapestZip);
        PlacedStep(pricesByZip, home, cheapestZip, i);
        layers := layers + [marker];
        markers := markers + [marker];
      }
      assert plotted[..|pricesByZip|] == plotted;
      if |markers| > 0 {
        bounds := Some(markers);
      }
    }
  }

  lemma PlacedStep(o: Obj<ZipEntry>, home: string, cheapestZip: Option<string>, i: nat)
    requires i < |o|
    ensures MarkersFor(o, home, cheapestZip)[..i + 1] == MarkersFor(o, home, cheapestZip)[..i] + [MarkerAt(o, i, home, cheapestZip)]
  {
  }

  /** `mapInstance.removeLayer(m)`: the first layer equal to `m` leaves the map. */
  function RemoveLayer(layers: seq<Marker>, m: Marker): (r: seq<Marker>)
    ensures m in layers ==> |r| == |layers| - 1
    ensures m !in layers ==> r == layers
    ensures layers != [] && layers[0] == m ==> r == layers[1..]
  {
    if layers == [] then []
    else if layers[0] == m then layers[1..]
    else [layers[0]] + RemoveLayer(layers[1..], m)
  }
}
