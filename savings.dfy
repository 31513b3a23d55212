/** The savings card of client/js/savings.js: the home ZIP's basket total
    against the cheapest ZIP's, per trip, per month and as a percentage. */
module Savings {
  import opened Wrappers
  import opened JsObject
  import opened Snapshot

  /** The figures the card shows. `percent` is None where the source's
      division gives NaN or an infinity (a home total of 0). */
  datatype SavingsCard = SavingsCard(
    homeNeighborhood: string,
    homeTotal: real,
    cheapestNeighborhood: string,
    cheapestTotal: real,
    savings: real,
    monthly: real,
    percent: Option<int>)

  /** Grocery trips per month. */
  const TripsPerMonth: real := 4.0

  /** `x.toFixed(0)` read back as a number: the nearest integer, halves
      rounded away from zero. */
  function ToFixed0(x: real): (r: int)
    ensures x - 0.5 <= r as real <= x + 0.5
    ensures x >= 0.0 ==> r >= 0
  {
    if x >= 0.0 then (x + 0.5).Floor else -((-x + 0.5).Floor)
  }

  /** `((savings / homeTotal) * 100).toFixed(0)`. */
  function Percent(savings: real, homeTotal: real): Option<int> {
    if homeTotal == 0.0 then None else Some(ToFixed0(savings / homeTotal * 100.0))
  }

  /** The card `showSavings(homeZip, pricesByZip)` fills in, or None when the
      home ZIP has no entry. */
  function CardFor(homeZip: string, o: Obj<ZipEntry>): Option<SavingsCard> {
    var home := Get(o, homeZip);
    if home.None? then None
    else
      var b := CheapestIndex(Totals(o));
      assert b.Some?;
      var i := b.value;
      KeyAt(o, i);
      var cheapestData := Get(o, o[i].key).value;
      var cheapestTotal := o[i].val.basketTotal;
      var savings := home.value.basketTotal - cheapestTotal;
      Some(SavingsCard(home.value.neighborhood, home.value.basketTotal, cheapestData.neighborhood,
        cheapestTotal, savings, savings * TripsPerMonth, Percent(savings, home.value.basketTotal)))
  }

  /** `showSavings`: nothing without the card's section or a home entry;
      otherwise the scan for the cheapest ZIP and the card's figures. */
  method ShowSavings(hasSection: bool, homeZip: string, pricesByZip: Obj<ZipEntry>) returns (card: Option<SavingsCard>)
    ensures card == if hasSection then CardFor(homeZip, pricesByZip) else None
  {
    if !hasSection {
      return None;
    }
    var homeData := Get(pricesByZip, homeZip);
    if homeData.None? {
      return None;
    }
    var cheapestZip, cheapestTotal := ScanCheapest(pricesByZip);
    KeyAt(pricesByZip, CheapestIndex(Totals(pricesByZip)).value);
    var cheapestData := Get(pricesByZip, cheapestZip.value).value;
    var savings := homeData.value.basketTotal - cheapestTotal.value;
    var monthlySavings := savings * TripsPerMonth;
    var pctSavings := Percent(savings, homeData.value.basketTotal);
    card := Some(SavingsCard(homeData.value.neighborhood, homeData.value.basketTotal, cheapestData.neighborhood,
      cheapestTotal.value, savings, monthlySavings, pctSavings));
  }

  /** There is a card exactly when the home ZIP has an entry, and then it
      shows the home entry's neighborhood and total. */
  lemma CardExists(homeZip: string, o: Obj<ZipEntry>)
    ensures CardFor(homeZip, o).Some? <==> HasKey(o, homeZip)
    ensures CardFor(homeZip, o).Some? ==>
      && CardFor(homeZip, o).value.homeTotal == Get(o, homeZip).value.basketTotal
      && CardFor(homeZip, o).value.homeNeighborhood == Get(o, homeZip).value.neighborhood
  {
  }

  /** The cheapest total is the smallest total, the per-trip savings are
      never negative and are 0 exactly when home is as cheap as every ZIP,
      the monthly figure is four trips' worth, and with non-negative totals
      and a positive home total the percentage lies between 0 and 100. */
  lemma CardFigures(homeZip: string, o: Obj<ZipEntry>)
    requires HasKey(o, homeZip)
    ensures var c := CardFor(homeZip, o).value;
      && (forall j :: 0 <= j < |o| ==> c.cheapestTotal <= o[j].val.basketTotal)
      && (exists j :: 0 <= j < |o| && o[j].val.basketTotal == c.cheapestTotal)
      && c.savings >= 0.0
      && (c.savings == 0.0 <==> forall j :: 0 <= j < |o| ==> c.homeTotal <= o[j].val.basketTotal)
      && c.monthly == 4.0 * c.savings
      && (c.homeTotal != 0.0 ==> c.percent == Some(ToFixed0(c.savings / c.homeTotal * 100.0)))
      && (c.homeTotal > 0.0 && c.cheapestTotal >= 0.0 ==> c.percent.Some? && 0 <= c.percent.value <= 100)
  {
    var c := CardFor(homeZip, o).value;
    var ts := Totals(o);
    var i := CheapestIndex(ts).value;
    var h := Position(o, homeZip);
    GetPosition(o, homeZip);
    assert c.cheapestTotal == ts[i];
    assert c.homeTotal == ts[h];
    assert c.savings == ts[h] - ts[i];
    assert forall j :: 0 <= j < |o| ==> ts[i] <= ts[j];
    if c.homeTotal > 0.0 && c.cheapestTotal >= 0.0 {
      PercentBounds(c.savings, c.homeTotal);
    }
  }

  lemma PercentBounds(savings: real, homeTotal: real)
    requires homeTotal > 0.0 && 0.0 <= savings <= homeTotal
    ensures Percent(savings, homeTotal).Some? && 0 <= Percent(savings, homeTotal).value <= 100
  {
    var x := savings / homeTotal * 100.0;
    assert savings / homeTotal <= 1.0;
    assert 0.0 <= x <= 100.0;
    assert (x + 0.5).Floor <= 100;
  }

  /** In an object with distinct keys the cheapest neighborhood is that of
      the first ZIP with the smallest total. */
  lemma CheapestIsFirst(homeZip: string, o: Obj<ZipEntry>)
    requires Valid(o) && HasKey(o, homeZip)
    ensures var c := CardFor(homeZip, o).value;
      exists j :: 0 <= j < |o|
        && o[j].val.basketTotal == c.cheapestTotal
        && c.cheapestNeighborhood == o[j].val.neighborhood
        && (forall k :: 0 <= k < j ==> o[k].val.basketTotal > c.cheapestTotal)
  {
    var j := CheapestIndex(Totals(o)).value;
    GetAt(o, j);
  }
}
