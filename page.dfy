/** The derived view of the results page: the visible flights, the clamped
    price trend and the airline choices, each recomputed from the full result
    list and the current filters. */
module Pipeline {
  import opened Types
  import Seqs
  import Text

  /** The filter state the page starts with. */
  function InitialFilters(): (r: FilterParams)
    ensures forall f :: Matches(r, f) <==> f.price <= 1000
  {
    FilterParams(1000, None, [])
  }

  /** The filter state set by the "Clear all filters" button of the empty
      result view; its ceiling differs from the initial one. */
  function ClearAllFilters(): (r: FilterParams)
    ensures forall f :: Matches(r, f) <==> f.price <= 1500
  {
    FilterParams(1500, None, [])
  }

  /** Whether one flight passes the price, stop and airline tests. */
  predicate Matches(filters: FilterParams, f: Flight) {
    f.price <= filters.maxPrice &&
    (filters.stops.None? || f.stops == filters.stops.value) &&
    (|filters.airlines| == 0 || f.airline in filters.airlines)
  }

  /** `Matches` with the filters fixed, as the callback handed to `filter`. */
  function Matcher(filters: FilterParams): Flight -> bool {
    f => Matches(filters, f)
  }

  /** The price test alone, as a callback. */
  function UnderPrice(maxPrice: int): Flight -> bool {
    (f: Flight) => f.price <= maxPrice
  }

  /** The visible flights. */
  function FilterFlights(flights: seq<Flight>, filters: FilterParams): (r: seq<Flight>)
    ensures forall f :: f in r <==>
      f in flights && f.price <= filters.maxPrice &&
      (filters.stops == None || filters.stops == Some(f.stops)) &&
      (filters.airlines == [] || f.airline in filters.airlines)
  {
    var r := Seqs.Filter(flights, Matcher(filters));
    assert forall f :: f in r <==> f in flights && Matches(filters, f);
    r
  }

  /** The visible list is the full list with some flights deleted, never reordered. */
  lemma FilteredIsSubsequence(flights: seq<Flight>, filters: FilterParams)
    ensures Seqs.IsSubsequence(FilterFlights(flights, filters), flights)
  {
    Seqs.FilterIsSubsequence(flights, Matcher(filters));
  }

  /** Every copy of a matching flight stays visible; no other flight does. */
  lemma FilteredCounts(flights: seq<Flight>, filters: FilterParams)
    ensures forall f :: multiset(FilterFlights(flights, filters))[f] ==
                        (if Matches(filters, f) then multiset(flights)[f] else 0)
  {
    Seqs.FilterCounts(flights, Matcher(filters));
  }

  /** Recomputing the view from the visible list changes nothing. */
  lemma FilterIdempotent(flights: seq<Flight>, filters: FilterParams)
    ensures FilterFlights(FilterFlights(flights, filters), filters) == FilterFlights(flights, filters)
  {
    Seqs.FilterIdempotent(flights, Matcher(filters));
  }

  /** The flights at or under a price ceiling, in order. */
  function WithinPrice(flights: seq<Flight>, maxPrice: int): (r: seq<Flight>)
    ensures forall f :: f in r <==> f in flights && f.price <= maxPrice
  {
    Seqs.Filter(flights, UnderPrice(maxPrice))
  }

  /** With no stop requirement and no airline selected, only the price
      ceiling removes flights. */
  lemma OnlyPriceFilters(flights: seq<Flight>, filters: FilterParams)
    requires filters.stops == None && filters.airlines == []
    ensures FilterFlights(flights, filters) == WithinPrice(flights, filters.maxPrice)
  {
    Seqs.FilterAgreeing(flights, Matcher(filters), UnderPrice(filters.maxPrice));
  }

  /** The initial state shows every flight at or under 1000, and "Clear all
      filters" every flight at or under 1500. */
  lemma DefaultViews(flights: seq<Flight>)
    ensures FilterFlights(flights, InitialFilters()) == WithinPrice(flights, 1000)
    ensures FilterFlights(flights, ClearAllFilters()) == WithinPrice(flights, 1500)
  {
    OnlyPriceFilters(flights, InitialFilters());
    OnlyPriceFilters(flights, ClearAllFilters());
  }

  /** Lowering the ceiling narrows the visible list to its cheaper part. */
  lemma LowerCeilingNarrows(flights: seq<Flight>, filters: FilterParams, maxPrice: int)
    requires maxPrice <= filters.maxPrice
    ensures FilterFlights(flights, filters.(maxPrice := maxPrice)) ==
      WithinPrice(FilterFlights(flights, filters), maxPrice)
  {
    Seqs.FilterTwice(flights, Matcher(filters), UnderPrice(maxPrice), Matcher(filters.(maxPrice := maxPrice)));
  }

  /** The ceiling applied to one trend price. */
  function ClampPrice(price: int, maxPrice: int): int {
    if price > maxPrice then maxPrice else price
  }

  /** The trend series as drawn: untouched when no flight is visible, otherwise
      every price capped at the ceiling. */
  function AdjustTrends(trends: seq<PriceTrend>, filtered: seq<Flight>, maxPrice: int): (r: seq<PriceTrend>)
    ensures |r| == |trends|
    ensures filtered == [] ==> r == trends
    ensures filtered != [] ==> forall i :: 0 <= i < |r| ==>
      r[i].date == trends[i].date &&
      r[i].price <= maxPrice && r[i].price <= trends[i].price &&
      (r[i].price == trends[i].price || r[i].price == maxPrice)
  {
    if |filtered| == 0 then trends
    else seq(|trends|, i requires 0 <= i < |trends| =>
           trends[i].(price := ClampPrice(trends[i].price, maxPrice)))
  }

  /** Points already at or under the ceiling are drawn as they were, so
      adjusting an adjusted series changes nothing. */
  lemma AdjustTrendsIdempotent(trends: seq<PriceTrend>, filtered: seq<Flight>, maxPrice: int)
    ensures AdjustTrends(AdjustTrends(trends, filtered, maxPrice), filtered, maxPrice) ==
      AdjustTrends(trends, filtered, maxPrice)
  {
  }

  /** The airline names of the flights, in list order, duplicates included. */
  function AirlinesOf(flights: seq<Flight>): (r: seq<string>)
    ensures |r| == |flights|
    ensures forall i :: 0 <= i < |flights| ==> r[i] == flights[i].airline
  {
    seq(|flights|, i requires 0 <= i < |flights| => flights[i].airline)
  }

  /** Strictly increasing in the default string order. */
  predicate StrictlySorted(s: seq<string>) {
    forall i, j :: 0 <= i < j < |s| ==> Text.LexLess(s[i], s[j])
  }

  /** Adds `x` to a strictly sorted list unless it is already there. */
  function Insert(sorted: seq<string>, x: string): (r: seq<string>)
    requires StrictlySorted(sorted)
    ensures StrictlySorted(r)
    ensures forall y :: y in r <==> y in sorted || y == x
  {
    if sorted == [] then [x]
    else if x == sorted[0] then sorted
    else if Text.LexLess(x, sorted[0]) then
      InsertFirst(sorted, x)
    else
      var rest := Insert(sorted[1..], x);
      Text.LexLessTotal(x, sorted[0]);
      assert forall y :: y in rest ==> Text.LexLess(sorted[0], y);
      [sorted[0]] + rest
  }

  /** `x` below the head of a strictly sorted list may go in front of it. */
  function InsertFirst(sorted: seq<string>, x: string): (r: seq<string>)
    requires StrictlySorted(sorted) && sorted != [] && Text.LexLess(x, sorted[0])
    ensures r == [x] + sorted && StrictlySorted(r)
  {
    forall j | 0 <= j < |sorted| ensures Text.LexLess(x, sorted[j]) {
      if j > 0 {
        Text.LexLessTransitive(x, sorted[0], sorted[j]);
      }
    }
    [x] + sorted
  }

  /** `Array.from(new Set(names)).sort()`. */
  function SortedDistinct(names: seq<string>): (r: seq<string>)
    ensures StrictlySorted(r)
    ensures forall y :: y in r <==> y in names
  {
    if names == [] then []
    else
      var r := Insert(SortedDistinct(names[1..]), names[0]);
      assert names == [names[0]] + names[1..];
      r
  }

  /** The airline choices offered by the sidebar, built from the unfiltered list. */
  function UniqueAirlines(flights: seq<Flight>): (r: seq<string>)
    ensures StrictlySorted(r) && Seqs.NoDuplicates(r)
    ensures forall a :: a in r <==> exists f :: f in flights && f.airline == a
  {
    var r := SortedDistinct(AirlinesOf(flights));
    StrictlySortedNoDuplicates(r);
    forall a ensures a in r <==> exists f :: f in flights && f.airline == a {
      if a in r {
        var i :| 0 <= i < |flights| && AirlinesOf(flights)[i] == a;
        assert flights[i] in flights;
      }
    }
    r
  }

  lemma StrictlySortedNoDuplicates(s: seq<string>)
    requires StrictlySorted(s)
    ensures Seqs.NoDuplicates(s)
  {
    forall i, j | 0 <= i < j < |s| ensures s[i] != s[j] {
      Text.LexLessIrreflexive(s[i]);
    }
  }

  /** A strictly sorted list is determined by its elements: it is the one
      sorted arrangement of the airline set. */
  lemma {:induction false} StrictlySortedUnique(a: seq<string>, b: seq<string>)
    requires StrictlySorted(a) && StrictlySorted(b)
    requires forall y :: y in a <==> y in b
    ensures a == b
  {
    if a != [] {
      assert a[0] in a;
    }
    if b != [] {
      assert b[0] in b;
    }
    if a != [] && b != [] {
      var i :| 0 <= i < |b| && b[i] == a[0];
      var j :| 0 <= j < |a| && a[j] == b[0];
      if i != 0 && j != 0 {
        Text.LexLessAsymmetric(b[0], a[0]);
      }
      assert a[0] == b[0];
      assert a == [a[0]] + a[1..] && b == [b[0]] + b[1..];
      forall y ensures y in a[1..] <==> y in b[1..] {
        if y in a[1..] {
          SortedHeadNotInTail(a, y);
          assert y in a && y in b;
        }
        if y in b[1..] {
          SortedHeadNotInTail(b, y);
          assert y in b && y in a;
        }
      }
      StrictlySortedUnique(a[1..], b[1..]);
    }
  }

  lemma SortedHeadNotInTail(s: seq<string>, y: string)
    requires StrictlySorted(s) && s != [] && y in s[1..]
    ensures y != s[0]
  {
    var k :| 0 <= k < |s[1..]| && s[1..][k] == y;
    assert s[k + 1] == y;
    Text.LexLessIrreflexive(s[0]);
  }

  /** A flight that differs from others only in price, stops and airline. */
  function SampleFlight(price: int, stops: int, airline: string): Flight {
    Flight("", airline, "", "", "", "", "", "", "", price, "USD", stops, Economy)
  }

  /** A ceiling of 600 keeps the 500 flight and drops the 900 one; requiring
      non-stop keeps only the 900 one. */
  lemma FilterScenarios()
    ensures var a, b := SampleFlight(500, 1, "A"), SampleFlight(900, 0, "B");
      FilterFlights([a, b], FilterParams(600, None, [])) == [a] &&
      FilterFlights([a, b], FilterParams(1000, Some(0), [])) == [b]
  {
    var a, b := SampleFlight(500, 1, "A"), SampleFlight(900, 0, "B");
    var cheap, direct := FilterParams(600, None, []), FilterParams(1000, Some(0), []);
    assert [a, b][1..] == [b] && [b][1..] == [];
    assert Matcher(cheap)(a) && !Matcher(cheap)(b);
    assert Seqs.Filter([a, b], Matcher(cheap)) == [a] + Seqs.Filter([b], Matcher(cheap)) == [a];
    assert !Matcher(direct)(a) && Matcher(direct)(b);
    assert Seqs.Filter([a, b], Matcher(direct)) == Seqs.Filter([b], Matcher(direct)) == [b];
  }

  /** Airlines B, A, A, C are offered as A, B, C. */
  lemma AirlineChoicesScenario()
    ensures UniqueAirlines([SampleFlight(0, 0, "B"), SampleFlight(0, 0, "A"),
                            SampleFlight(0, 0, "A"), SampleFlight(0, 0, "C")]) == ["A", "B", "C"]
  {
    var flights := [SampleFlight(0, 0, "B"), SampleFlight(0, 0, "A"),
                    SampleFlight(0, 0, "A"), SampleFlight(0, 0, "C")];
    var expected := ["A", "B", "C"];
    assert Text.LexLess("A", "B") && Text.LexLess("B", "C") && Text.LexLess("A", "C");
    assert StrictlySorted(expected);
    forall y ensures y in UniqueAirlines(flights) <==> y in expected {
      assert flights[0] in flights && flights[1] in flights && flights[3] in flights;
    }
    StrictlySortedUnique(UniqueAirlines(flights), expected);
  }
}
