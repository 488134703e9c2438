# Flight search front end — verified model

A Dafny model of the logic of a small flight-search web front end. A search
returns a list of flights, either mapped from the flight offers of a live API
or, on any failure, a batch of 20 generated mock flights sorted by price. The
results page derives three things from that list and the current filter state:
the visible flights, a price-trend series clamped to the price ceiling, and the
sorted list of airlines offered as filter choices. The filter sidebar changes
the filter state through four handlers.

Files, one module each:

- `types.dfy` (`Types`): `Flight`, `SearchParams`, `FilterParams`, `PriceTrend`,
  after `src/types/index.ts`.
- `seqs.dfy` (`Seqs`): `Array.prototype.filter` as an order-preserving `Filter`,
  with subsequence, multiplicity, idempotence and concatenation lemmas.
- `text.dfy` (`Text`): the JavaScript string operations the code uses.
  These are decimal `toString`, `padStart`, `substring`, `split(c)[1]`,
  ASCII `toLowerCase` and the default string order of `sort`.
- `page.dfy` (`Pipeline`): the derived view of `src/app/page.tsx`.
- `filter_sidebar.dfy` (`FilterSidebar`): the handlers of `src/components/FilterSidebar.tsx`.
- `mock_data.dfy` (`MockData`): `generateMockFlights` and `generatePriceTrends`.
  Both are imperative: a counted loop that pushes records. The flights are
  then sorted in place by an insertion sort on an array.
- `api.dfy` (`Api`): the offer-to-flight mapping of `searchFlights` and its
  fall-back to the mock batch.

Three points of the code that the model keeps as written:

- The trend clamp leaves the series untouched when no flight is visible
  (`src/app/page.tsx:56`); only a non-empty visible list clamps the prices.
- The time of day is `split('T')[1]` cut to five characters
  (`src/services/api.ts:29-30`): the text between the first and the second
  `'T'` (or the end of the timestamp).
- The page's "Clear all filters" button sets a ceiling of 1500
  (`src/app/page.tsx:164`), while the initial state (`src/app/page.tsx:21-25`)
  and the sidebar's "Reset All" use 1000.

## Model

| member | source | states |
|---|---|---|
| Pipeline.InitialFilters | src/app/page.tsx:21-25 | in the initial state a flight is visible iff its price is at most 1000 |
| Pipeline.ClearAllFilters | src/app/page.tsx:164 | after "Clear all filters" a flight is visible iff its price is at most 1500 |
| Seqs.Filter | src/app/page.tsx:45 | the result holds exactly the elements of the input that satisfy the callback, and is no longer than the input |
| Pipeline.FilterFlights | src/app/page.tsx:44-52 | a flight is visible iff it is in the list, its price is at most `maxPrice`, the stop filter is unset or equals its stop count, and the selection is empty or contains its airline |
| Pipeline.FilteredIsSubsequence | src/app/page.tsx:45 | the visible list is a subsequence of the full list (deletions only, relative order kept) |
| Pipeline.FilteredCounts | src/app/page.tsx:45-51 | each matching flight keeps all its copies; every other flight has none |
| Pipeline.FilterIdempotent | src/app/page.tsx:44-52 | filtering the visible list again with the same filters returns it unchanged |
| Pipeline.WithinPrice | src/app/page.tsx:46 | reference selection by price ceiling alone: holds exactly the flights priced at or under the ceiling |
| Pipeline.OnlyPriceFilters | src/app/page.tsx:46-49 | with no stop requirement and no airline selected, the visible list equals the price-only selection |
| Pipeline.DefaultViews | src/app/page.tsx:21-25 | the initial filters show exactly the flights at or under 1000; "Clear all filters" (line 164) shows those at or under 1500 |
| Pipeline.LowerCeilingNarrows | src/app/page.tsx:46 | lowering the ceiling yields the old visible list restricted to the new ceiling |
| Pipeline.AdjustTrends | src/app/page.tsx:55-62 | same length; untouched when no flight is visible; otherwise same dates, each price at most the ceiling and at most the old price, and equal to one of them (the minimum) |
| Pipeline.AdjustTrendsIdempotent | src/app/page.tsx:58-61 | adjusting an adjusted series changes nothing |
| Pipeline.Insert | src/app/page.tsx:65 | adding a name to a strictly sorted list keeps it strictly sorted; the members become the old ones plus the name |
| Pipeline.SortedDistinct | src/app/page.tsx:65 | `Array.from(new Set(names)).sort()` is strictly sorted and has exactly the names as members |
| Pipeline.UniqueAirlines | src/app/page.tsx:64-66 | the airline choices are strictly sorted, duplicate-free, and are exactly the airlines of the unfiltered flights |
| Pipeline.StrictlySortedUnique | src/app/page.tsx:65 | two strictly sorted lists with the same members are equal, so the choices are the one sorted arrangement of the airline set |
| Pipeline.FilterScenarios | src/app/page.tsx:44-52 | flights (500, 1 stop, A) and (900, non-stop, B): ceiling 600 shows only the first; non-stop under 1000 shows only the second |
| Pipeline.AirlineChoicesScenario | src/app/page.tsx:64-66 | airlines B, A, A, C are offered as A, B, C |
| Text.LexLessTransitive | src/app/page.tsx:65 | the default string order of `sort` is transitive |
| Text.LexLessTotal | src/app/page.tsx:65 | any two different strings are ordered one way or the other |
| Text.LexLessAsymmetric | src/app/page.tsx:65 | no two strings are ordered both ways |
| FilterSidebar.HandlePriceChange | src/components/FilterSidebar.tsx:13-15 | the new state has the new ceiling and the old stop filter and selection |
| FilterSidebar.HandleStopChange | src/components/FilterSidebar.tsx:17-19 | the new state has the new stop filter and the old ceiling and selection |
| FilterSidebar.ToggleAirline | src/components/FilterSidebar.tsx:21-24 | membership of the toggled airline flips, membership of every other name is unchanged, and an absent airline is appended at the end |
| FilterSidebar.HandleToggleAirline | src/components/FilterSidebar.tsx:21-26 | only the selection changes, and it becomes the toggled selection |
| FilterSidebar.ResetAll | src/components/FilterSidebar.tsx:36 | "Reset All" gives the page's initial state and not the state of "Clear all filters" |
| FilterSidebar.ResetAllShowsUnder1000 | src/components/FilterSidebar.tsx:36 | after "Reset All" exactly the flights at or under 1000 are visible, in order |
| FilterSidebar.UnselectKeepsOthers | src/components/FilterSidebar.tsx:22-23 | unselecting a selected airline removes every copy of it and keeps the other names in order with their multiplicities |
| FilterSidebar.ToggleTwiceRestores | src/components/FilterSidebar.tsx:21-26 | selecting an unselected airline and then unselecting it restores the selection exactly |
| FilterSidebar.ToggleKeepsNoDuplicates | src/components/FilterSidebar.tsx:22-24 | a duplicate-free selection stays duplicate-free after a toggle |
| Text.NatToStringDigits | src/services/mockData.ts:22 | the decimal text of any number is non-empty and consists only of digits |
| Text.ParseNatToString | src/services/mockData.ts:22 | reading back the decimal text of a number gives the number |
| Text.NatToStringInjective | src/services/mockData.ts:22 | different numbers have different decimal texts |
| MockData.HourTextRoundTrip | src/services/mockData.ts:28-29 | an hour below 24 is written as the five characters "hh:00", and reading the first two back gives the hour |
| MockData.MockFlightShape | src/services/mockData.ts:21-35 | each pushed record has a price in [150, 950), 0 to 2 stops, the searched route, "USD", Economy, a name/code pair from the 5-entry table, and flight number = code followed by 100 + i |
| MockData.MockFlightClock | src/services/mockData.ts:17-19 | the duration is 2 to 11 hours, the departure hour is the drawn one, and the arrival hour is (departure + duration) mod 24, within 0..23 |
| MockData.MockFlight | src/services/mockData.ts:16-35 | the record of round i has a price in [150, 950) and 0 to 2 stops, whatever the draws |
| MockData.MockBatch | src/services/mockData.ts:15 | the loop runs 20 rounds, so the batch holds exactly 20 records |
| MockData.PushMockFlights | src/services/mockData.ts:15-36 | the counted loop pushes, in order, the record of round k for k = 0 .. 19, i.e. exactly the batch |
| MockData.MockBatchIds | src/services/mockData.ts:22 | the i-th pushed record has id "f-i", and the 20 ids are pairwise distinct |
| MockData.MockBatchShape | src/services/mockData.ts:21-35 | every pushed record has the mock shape |
| MockData.SortByPrice | src/services/mockData.ts:38 | the array ends sorted ascending by price and is a permutation of its initial contents |
| MockData.DistinctIdsPermutation | src/services/mockData.ts:38 | reordering records cannot make two of them share an id |
| MockData.GenerateMockFlights | src/services/mockData.ts:12-39 | returns 20 flights, sorted ascending by price, a permutation of the 20 pushed records, with distinct ids, each with the mock shape |
| MockData.GeneratePriceTrends | src/services/mockData.ts:41-51 | returns 15 points for days start-7 .. start+7 in increasing order, point k priced 200 + draw k, every price in [200, 600) |
| Api.TimeOfDay | src/services/api.ts:29-30 | fails exactly when the timestamp holds no 'T'; otherwise yields at most five characters |
| Text.UpTo | src/services/api.ts:29 | the text before the first separator: it holds no separator, is a prefix of the input, is followed by the separator when there is one, and is the whole input otherwise |
| Text.SecondField | src/services/api.ts:29 | `split(c)[1]` is undefined exactly when the text holds no separator |
| Api.TimeOfDayStopsAtSecondT | src/services/api.ts:29 | for "date T mid T rest" the time of day is the first five characters of mid: the text after a second 'T' is dropped |
| Api.TimeOfDayOfTimestamp | src/services/api.ts:29 | for "date T time" with no other 'T', yields the first five characters of the time (all of it when shorter) |
| Api.TimeOfDayExample | src/services/api.ts:29 | "2024-05-01T08:30:00" yields "08:30" |
| Text.LowerAscii | src/services/api.ts:31 | same length; every letter A-Z becomes the matching letter a-z and every other character is kept |
| Api.ShortDuration | src/services/api.ts:31 | the result is the input from its third character on, lowercased (empty for inputs shorter than two), so it has no upper-case letter |
| Api.ShortDurationDaysExample | src/services/api.ts:31 | exactly two characters are dropped whatever they are: "P1DT2H" gives "dt2h" |
| Api.ShortDurationDropsMarker | src/services/api.ts:31 | "PT" followed by a duration gives that duration lowercased |
| Api.ShortDurationExample | src/services/api.ts:31 | "PT2H30M" gives "2h30m" |
| Api.MapOffer | src/services/api.ts:22-36 | maps iff there is an itinerary with a segment and both timestamps hold a 'T'. The id, price and currency come from the offer; airline and code are the first carrier code; the flight number is code + segment number. The times come from the first departure and the last arrival, the duration is the shortened one and stops + 1 = segment count. The route comes from the search, and the class is always Economy |
| Api.MapOffers | src/services/api.ts:22 | succeeds iff every offer maps; then one flight per offer, in the same order |
| Api.SearchFlights | src/services/api.ts:4-41 | a successful fetch whose offers all map returns the mapped flights. Anything else returns the mock batch for the searched route: 20 flights, sorted by price, a permutation of the pushed records. The call never fails |

## Left out

- `src/app/api/flights/route.ts` (the proxy to the flight API, with its credentials and its missing-parameter check) is I/O and is not part of this model.
- `fetch`, `response.json()`, `URLSearchParams` and `console.warn` are I/O: the fetch outcome is the input `Api.Response`, where `Failed` covers a network error, a non-OK status and an unreadable body.
- `parseFloat(offer.price.total)` is floating-point parsing: the offer's total is an integer input, and prices are integers throughout.
- `Math.random` draws are parameters bounded as `Math.floor(Math.random() * n)` bounds them (`MockData.FlightDraw`, the trend draws).
- The `date-fns` calls `addDays` and `format(…, "MMM dd")` belong to a library that is not part of this model: a trend date is an integer day number, and its text label is not modelled.
- `handleSearch` (loading flags, React state, overlapping searches whose results may arrive out of order) is asynchronous UI plumbing.
- Rendering (JSX, animations, the search form, result cards, the price chart) has no logic to model.
- The `parseInt` of the slider value is not modelled: the ceiling is an integer input, and a non-numeric slider value (`NaN`) is not represented.
- In `Api.MapOffer`, the failures modelled are a missing itinerary, a missing segment and a timestamp without 'T'. Offers are typed records, so a missing or non-string field, which would throw or print "undefined" in JavaScript, cannot occur.
- `Text.LowerAscii` lowercases only the letters A-Z; JavaScript's `toLowerCase` also maps other Unicode letters.
- `Text.LexLess` compares characters; JavaScript's default `sort` compares UTF-16 code units. The two orders differ only for characters outside the Basic Multilingual Plane.
- MockData.GenerateMockFlights: does not state the relative order of flights of equal price, which JavaScript's stable sort keeps as pushed; the result is stated to be sorted and a permutation of the pushed records.
- MockData.SortByPrice: sorted and a permutation; stability is not stated.
- `src/types/amadeus.d.ts` holds type declarations only and has no behaviour.
