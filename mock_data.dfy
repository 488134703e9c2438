/** The synthetic data used when the live search is unavailable: a batch of
    20 flights sorted by price and a 15-day price trend. Every random draw is
    a parameter, bounded as `Math.floor(Math.random() * n)` bounds it. */
module MockData {
  import opened Types
  import Text

  datatype AirlineEntry = AirlineEntry(name: string, code: string)

  /** The fixed airline table the generator draws from. */
  const Airlines: seq<AirlineEntry> := [
    AirlineEntry("SkyLink Airways", "SL"),
    AirlineEntry("Oceanic Air", "OA"),
    AirlineEntry("Global Connect", "GC"),
    AirlineEntry("Horizon Jets", "HJ"),
    AirlineEntry("Vista Airlines", "VA")
  ]

  const FlightCount := 20
  const TrendDays := 7

  /** The five draws made for one flight, in the order the source makes them:
      an index into `Airlines`, the departure hour, the duration above two
      hours, the price above 150 and the stop count. */
  datatype FlightDraw = FlightDraw(airline: int, departureHour: int, durationDraw: int, priceDraw: int, stops: int)

  predicate ValidDraw(d: FlightDraw) {
    0 <= d.airline < |Airlines| && 0 <= d.departureHour < 24 && 0 <= d.durationDraw < 10 &&
    0 <= d.priceDraw < 800 && 0 <= d.stops < 3
  }

  predicate ValidDraws(draws: seq<FlightDraw>) {
    |draws| == FlightCount && forall k :: 0 <= k < |draws| ==> ValidDraw(draws[k])
  }

  /** `${h.toString().padStart(2, '0')}:00` */
  function HourText(h: nat): string {
    Text.PadStart2(Text.NatToString(h)) + ":00"
  }

  /** The hour a "hh:mm" text starts with, or -1 when it starts otherwise. */
  function HourOf(t: string): int {
    if |t| >= 2 && Text.IsDigit(t[0]) && Text.IsDigit(t[1])
    then 10 * Text.DigitValue(t[0]) + Text.DigitValue(t[1])
    else -1
  }

  /** An hour below 24 is written as five characters "hh:00" and read back. */
  lemma HourTextRoundTrip(h: nat)
    requires h < 24
    ensures |HourText(h)| == 5 && HourText(h)[2..] == ":00"
    ensures HourOf(HourText(h)) == h
  {
    var digits := Text.NatToString(h);
    if h < 10 {
      assert digits == [Text.DigitChar(h)];
      assert Text.PadStart2(digits) == ['0', Text.DigitChar(h)];
    } else {
      assert Text.NatToString(h / 10) == [Text.DigitChar(h / 10)];
      assert digits == [Text.DigitChar(h / 10), Text.DigitChar(h % 10)];
      assert Text.PadStart2(digits) == digits;
    }
  }

  /** The record the loop pushes on its `i`-th round. */
  function MockFlight(i: nat, airline: AirlineEntry, d: FlightDraw, origin: string, destination: string): (r: Flight)
    requires ValidDraw(d)
    ensures 150 <= r.price < 950 && 0 <= r.stops <= 2
  {
    var durationHours := 2 + d.durationDraw;
    var arrivalHour := (d.departureHour + durationHours) % 24;
    Flight(
      "f-" + Text.NatToString(i),
      airline.name,
      airline.code,
      airline.code + Text.NatToString(100 + i),
      origin,
      destination,
      HourText(d.departureHour),
      HourText(arrivalHour),
      Text.NatToString(durationHours) + "h 00m",
      150 + d.priceDraw,
      "USD",
      d.stops,
      Economy)
  }

  /** The fields every mock record has whatever the draws: a price in
      [150, 950), 0 to 2 stops, the searched route, "USD", Economy, and an
      airline from the table. */
  predicate MockShape(f: Flight, origin: string, destination: string) {
    150 <= f.price < 950 && 0 <= f.stops <= 2 &&
    f.origin == origin && f.destination == destination &&
    f.currency == "USD" && f.cabin == Economy &&
    AirlineEntry(f.airline, f.airlineCode) in Airlines
  }

  /** Every mock record has the mock shape and its flight number is the
      airline code followed by 100 + i. */
  lemma MockFlightShape(i: nat, airline: AirlineEntry, d: FlightDraw, origin: string, destination: string)
    requires ValidDraw(d) && airline in Airlines
    ensures MockShape(MockFlight(i, airline, d, origin, destination), origin, destination)
    ensures var f := MockFlight(i, airline, d, origin, destination);
      f.flightNumber == f.airlineCode + Text.NatToString(100 + i)
  {
  }

  /** The departure hour is the drawn one, the duration lies between 2 and 11
      hours, and the arrival hour is the departure hour plus the duration,
      around the clock. */
  lemma MockFlightClock(i: nat, airline: AirlineEntry, d: FlightDraw, origin: string, destination: string)
    requires ValidDraw(d)
    ensures var f := MockFlight(i, airline, d, origin, destination);
      var hours := 2 + d.durationDraw;
      |f.departureTime| == 5 && |f.arrivalTime| == 5 &&
      HourOf(f.departureTime) == d.departureHour &&
      0 <= HourOf(f.arrivalTime) < 24 &&
      2 <= hours <= 11 && f.duration == Text.NatToString(hours) + "h 00m" &&
      HourOf(f.arrivalTime) == (HourOf(f.departureTime) + hours) % 24
  {
    var f := MockFlight(i, airline, d, origin, destination);
    var arrival := (d.departureHour + 2 + d.durationDraw) % 24;
    assert f.departureTime == HourText(d.departureHour) && f.arrivalTime == HourText(arrival);
    HourTextRoundTrip(d.departureHour);
    HourTextRoundTrip(arrival);
  }

  /** The 20 records in the order the loop pushes them. */
  function MockBatch(origin: string, destination: string, draws: seq<FlightDraw>): (r: seq<Flight>)
    requires ValidDraws(draws)
    ensures |r| == FlightCount
  {
    seq(FlightCount, k requires 0 <= k < FlightCount =>
      MockFlight(k, Airlines[draws[k].airline], draws[k], origin, destination))
  }

  predicate DistinctIds(flights: seq<Flight>) {
    forall i, j :: 0 <= i < j < |flights| ==> flights[i].id != flights[j].id
  }

  /** The pushed records carry the ids "f-0" .. "f-19", all different. */
  lemma MockBatchIds(origin: string, destination: string, draws: seq<FlightDraw>)
    requires ValidDraws(draws)
    ensures forall k :: 0 <= k < FlightCount ==>
      MockBatch(origin, destination, draws)[k].id == "f-" + Text.NatToString(k)
    ensures DistinctIds(MockBatch(origin, destination, draws))
  {
    var batch := MockBatch(origin, destination, draws);
    forall i, j | 0 <= i < j < FlightCount ensures batch[i].id != batch[j].id {
      var a, b := Text.NatToString(i), Text.NatToString(j);
      if "f-" + a == "f-" + b {
        assert a == ("f-" + a)[2..] == ("f-" + b)[2..] == b;
      }
      Text.NatToStringInjective(i, j);
    }
  }

  predicate SortedByPrice(flights: seq<Flight>) {
    forall i, j :: 0 <= i < j < |flights| ==> flights[i].price <= flights[j].price
  }

  /** Exchanges two neighbouring records. */
  method SwapDown(a: array<Flight>, j: int)
    requires 0 < j < a.Length
    modifies a
    ensures a[j - 1] == old(a[j]) && a[j] == old(a[j - 1])
    ensures forall k :: 0 <= k < a.Length && k != j - 1 && k != j ==> a[k] == old(a[k])
    ensures multiset(a[..]) == multiset(old(a[..]))
  {
    a[j - 1], a[j] := a[j], a[j - 1];
  }

  /** Moves `a[i]` down into the sorted prefix `a[..i]`. */
  method InsertDown(a: array<Flight>, i: int)
    requires 0 < i < a.Length
    requires forall k, l :: 0 <= k < l < i ==> a[k].price <= a[l].price
    modifies a
    ensures forall k, l :: 0 <= k < l <= i ==> a[k].price <= a[l].price
    ensures forall k :: i < k < a.Length ==> a[k] == old(a[k])
    ensures multiset(a[..]) == multiset(old(a[..]))
  {
    var j := i;
    while j > 0 && a[j - 1].price > a[j].price
      invariant 0 <= j <= i
      invariant forall k, l :: 0 <= k < l <= i && k != j && l != j ==> a[k].price <= a[l].price
      invariant forall l :: j < l <= i ==> a[j].price < a[l].price
      invariant forall k :: i < k < a.Length ==> a[k] == old(a[k])
      invariant multiset(a[..]) == multiset(old(a[..]))
    {
      SwapDown(a, j);
      j := j - 1;
    }
  }

  /** `flights.sort((a, b) => a.price - b.price)`, as an insertion sort. */
  method SortByPrice(a: array<Flight>)
    modifies a
    ensures SortedByPrice(a[..])
    ensures multiset(a[..]) == multiset(old(a[..]))
  {
    var i := 1;
    while i < a.Length
      invariant a.Length == 0 || 1 <= i <= a.Length
      invariant forall k, l :: 0 <= k < l < i && l < a.Length ==> a[k].price <= a[l].price
      invariant multiset(a[..]) == multiset(old(a[..]))
    {
      InsertDown(a, i);
      i := i + 1;
    }
  }

  /** Two equal records at different positions make two copies. */
  lemma TwoCopies(s: seq<Flight>, i: nat, j: nat)
    requires i < j < |s| && s[i] == s[j]
    ensures multiset(s)[s[i]] >= 2
  {
    assert s == s[..j] + [s[j]] + s[j + 1..];
    assert s[i] == s[..j][i];
  }

  /** With distinct ids, each record occurs once. */
  lemma OneCopy(t: seq<Flight>, p: nat)
    requires DistinctIds(t) && p < |t|
    ensures multiset(t)[t[p]] == 1
  {
    assert t == t[..p] + [t[p]] + t[p + 1..];
    forall x | x in t[..p] ensures x != t[p] {
      var k :| 0 <= k < p && t[..p][k] == x;
      assert x == t[k];
    }
    var after := t[p + 1..];
    forall x | x in after ensures x != t[p] {
      var k :| 0 <= k < |after| && after[k] == x;
      assert x == t[p + 1 + k];
    }
  }

  /** Reordering records cannot make two of them share an id. */
  lemma DistinctIdsPermutation(s: seq<Flight>, t: seq<Flight>)
    requires multiset(s) == multiset(t) && DistinctIds(t)
    ensures DistinctIds(s)
  {
    forall i, j | 0 <= i < j < |s| ensures s[i].id != s[j].id {
      assert s[i] in multiset(s) && s[j] in multiset(s);
      var p :| 0 <= p < |t| && t[p] == s[i];
      var q :| 0 <= q < |t| && t[q] == s[j];
      if p == q {
        TwoCopies(s, i, j);
        OneCopy(t, p);
      }
    }
  }

  /** Every pushed record has the mock shape. */
  lemma MockBatchShape(origin: string, destination: string, draws: seq<FlightDraw>)
    requires ValidDraws(draws)
    ensures forall f :: f in MockBatch(origin, destination, draws) ==> MockShape(f, origin, destination)
  {
    forall k | 0 <= k < FlightCount ensures MockShape(MockBatch(origin, destination, draws)[k], origin, destination) {
      MockFlightShape(k, Airlines[draws[k].airline], draws[k], origin, destination);
    }
  }

  /** Any reordering of the pushed records keeps their ids distinct and
      their shape. */
  lemma ReorderedBatch(flights: seq<Flight>, origin: string, destination: string, draws: seq<FlightDraw>)
    requires ValidDraws(draws)
    requires multiset(flights) == multiset(MockBatch(origin, destination, draws))
    ensures DistinctIds(flights)
    ensures forall f :: f in flights ==> MockShape(f, origin, destination)
  {
    var batch := MockBatch(origin, destination, draws);
    MockBatchIds(origin, destination, draws);
    DistinctIdsPermutation(flights, batch);
    MockBatchShape(origin, destination, draws);
    forall f | f in flights ensures f in batch {
      assert f in multiset(flights);
    }
  }

  /** The counted loop of `generateMockFlights`: one record pushed per round. */
  method PushMockFlights(origin: string, destination: string, draws: seq<FlightDraw>)
    returns (pushed: seq<Flight>)
    requires ValidDraws(draws)
    ensures pushed == MockBatch(origin, destination, draws)
  {
    ghost var batch := MockBatch(origin, destination, draws);
    pushed := [];
    for i := 0 to FlightCount
      invariant |pushed| == i
      invariant forall k :: 0 <= k < i ==> pushed[k] == batch[k]
    {
      var airline := Airlines[draws[i].airline];
      var record := MockFlight(i, airline, draws[i], origin, destination);
      assert record == batch[i];
      pushed := pushed + [record];
    }
  }

  /** `generateMockFlights(origin, destination)`: the 20 pushed records,
      sorted ascending by price. */
  method GenerateMockFlights(origin: string, destination: string, draws: seq<FlightDraw>)
    returns (flights: seq<Flight>)
    requires ValidDraws(draws)
    ensures |flights| == FlightCount
    ensures SortedByPrice(flights)
    ensures multiset(flights) == multiset(MockBatch(origin, destination, draws))
    ensures DistinctIds(flights)
    ensures forall f :: f in flights ==> MockShape(f, origin, destination)
  {
    var pushed := PushMockFlights(origin, destination, draws);
    var a := new Flight[|pushed|](k requires 0 <= k < |pushed| => pushed[k]);
    assert a[..] == pushed;
    SortByPrice(a);
    flights := a[..];
    ReorderedBatch(flights, origin, destination, draws);
  }

  /** `generatePriceTrends(start)`: one point per day from `start - 7` to
      `start + 7`, in order, priced 200 plus that day's draw. */
  method GeneratePriceTrends(start: int, draws: seq<int>) returns (trends: seq<PriceTrend>)
    requires |draws| == 2 * TrendDays + 1
    requires forall k :: 0 <= k < |draws| ==> 0 <= draws[k] < 400
    ensures |trends| == 2 * TrendDays + 1
    ensures forall k :: 0 <= k < |trends| ==>
      trends[k].date == start - TrendDays + k && trends[k].price == 200 + draws[k]
    ensures forall k :: 0 <= k < |trends| ==> 200 <= trends[k].price < 600
    ensures forall j, k :: 0 <= j < k < |trends| ==> trends[j].date < trends[k].date
  {
    trends := [];
    var i := -TrendDays;
    while i <= TrendDays
      invariant -TrendDays <= i <= TrendDays + 1
      invariant |trends| == i + TrendDays
      invariant forall k :: 0 <= k < |trends| ==>
        trends[k] == PriceTrend(start - TrendDays + k, 200 + draws[k])
    {
      trends := trends + [PriceTrend(start + i, 200 + draws[i + TrendDays])];
      i := i + 1;
    }
  }
}
