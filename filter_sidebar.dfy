/** The filter sidebar's event handlers. Each builds a new filter state from
    the current one; none changes the state it is given. */
module FilterSidebar {
  import opened Types
  import Seqs
  import Pipeline

  /** The price slider moved to `maxPrice`. */
  function HandlePriceChange(filters: FilterParams, maxPrice: int): (r: FilterParams)
    ensures r.maxPrice == maxPrice
    ensures r.stops == filters.stops && r.airlines == filters.airlines
  {
    filters.(maxPrice := maxPrice)
  }

  /** One of the stop radio buttons chosen (None = any number of stops). */
  function HandleStopChange(filters: FilterParams, stops: Option<int>): (r: FilterParams)
    ensures r.stops == stops
    ensures r.maxPrice == filters.maxPrice && r.airlines == filters.airlines
  {
    filters.(stops := stops)
  }

  /** The callback that keeps every name but `airline`. */
  function Other(airline: string): string -> bool {
    a => a != airline
  }

  /** The selection after clicking `airline`'s checkbox: removed (every copy)
      when selected, appended at the end otherwise. */
  function ToggleAirline(selected: seq<string>, airline: string): (r: seq<string>)
    ensures airline in r <==> airline !in selected
    ensures forall a :: a != airline ==> (a in r <==> a in selected)
    ensures airline !in selected ==> r == selected + [airline]
  {
    if airline in selected then Seqs.Filter(selected, Other(airline)) else selected + [airline]
  }

  /** The airline checkbox handler: only the selection changes. */
  function HandleToggleAirline(filters: FilterParams, airline: string): (r: FilterParams)
    ensures r.airlines == ToggleAirline(filters.airlines, airline)
    ensures r.maxPrice == filters.maxPrice && r.stops == filters.stops
  {
    filters.(airlines := ToggleAirline(filters.airlines, airline))
  }

  /** The "Reset All" button: the page's initial state, whose ceiling is not
      the one "Clear all filters" sets. */
  function ResetAll(): (r: FilterParams)
    ensures r == Pipeline.InitialFilters()
    ensures r != Pipeline.ClearAllFilters()
  {
    FilterParams(1000, None, [])
  }

  /** After "Reset All" the visible flights are exactly those at or under 1000. */
  lemma ResetAllShowsUnder1000(flights: seq<Flight>)
    ensures Pipeline.FilterFlights(flights, ResetAll()) == Pipeline.WithinPrice(flights, 1000)
  {
    Pipeline.DefaultViews(flights);
  }

  /** Unselecting deletes every copy of the airline and keeps the other names
      in their order with their multiplicities. */
  lemma UnselectKeepsOthers(selected: seq<string>, airline: string)
    requires airline in selected
    ensures Seqs.IsSubsequence(ToggleAirline(selected, airline), selected)
    ensures forall a :: multiset(ToggleAirline(selected, airline))[a] ==
                        (if a == airline then 0 else multiset(selected)[a])
  {
    Seqs.FilterIsSubsequence(selected, Other(airline));
    Seqs.FilterCounts(selected, Other(airline));
  }

  /** Selecting an airline and then unselecting it restores the selection. */
  lemma ToggleTwiceRestores(selected: seq<string>, airline: string)
    requires airline !in selected
    ensures ToggleAirline(ToggleAirline(selected, airline), airline) == selected
  {
    Seqs.FilterConcat(selected, [airline], Other(airline));
    Seqs.FilterKeepsAll(selected, Other(airline));
    assert Seqs.Filter([airline], Other(airline)) == [];
  }

  /** A selection without repeated names keeps that property. */
  lemma ToggleKeepsNoDuplicates(selected: seq<string>, airline: string)
    requires Seqs.NoDuplicates(selected)
    ensures Seqs.NoDuplicates(ToggleAirline(selected, airline))
  {
    if airline in selected {
      Seqs.FilterIsSubsequence(selected, Other(airline));
      Seqs.SubsequenceNoDuplicates(ToggleAirline(selected, airline), selected);
    }
  }
}
