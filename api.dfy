/** The search client: maps the flight offers returned by the proxy endpoint
    to `Flight` records, and falls back to the mock batch on any failure. */
module Api {
  import opened Types
  import Text
  import MockData

  /** One leg of an itinerary; timestamps are ISO 8601 date-times. */
  datatype Segment = Segment(departureAt: string, arrivalAt: string, carrierCode: string, number: string)

  datatype Itinerary = Itinerary(duration: string, segments: seq<Segment>)

  /** One offer; `priceTotal` stands for the parsed `price.total`. */
  datatype Offer = Offer(id: string, itineraries: seq<Itinerary>, priceTotal: int, currency: string)

  /** What the fetch produced: a failure (network error, non-OK status,
      unreadable body) or the array of offers. */
  datatype Response = Failed | Ok(offers: seq<Offer>)

  /** `at.split('T')[1].substring(0, 5)`; None where that throws because
      `at` holds no 'T'. */
  function TimeOfDay(at: string): (r: Option<string>)
    ensures r.None? <==> 'T' !in at
    ensures r.Some? ==> |r.value| <= 5
  {
    match Text.SecondField(at, 'T')
    case None => None
    case Some(field) => Some(Text.Substring(field, 0, 5))
  }

  /** For a timestamp "date T time" the time of day is the first five
      characters of the time. */
  lemma TimeOfDayOfTimestamp(date: string, time: string)
    requires 'T' !in date && 'T' !in time
    ensures TimeOfDay(date + "T" + time) == Some(if |time| <= 5 then time else time[..5])
  {
    var at := date + "T" + time;
    assert at == date + ['T'] + time;
    Text.AfterFirstSplit(date, 'T', time);
    assert Text.SecondField(at, 'T') == Some(time);
    assert Text.Substring(time, 0, 5) == time[0..if |time| <= 5 then |time| else 5];
    assert time[0..|time|] == time;
    assert TimeOfDay(at) == Some(Text.Substring(time, 0, 5));
  }

  /** With a second 'T' the time of day stops at it: only the text between the
      first and the second 'T' is cut to five characters. */
  lemma TimeOfDayStopsAtSecondT(date: string, mid: string, rest: string)
    requires 'T' !in date && 'T' !in mid
    ensures TimeOfDay(date + "T" + mid + "T" + rest) == Some(Text.Substring(mid, 0, 5))
  {
    var after := mid + "T" + rest;
    assert date + "T" + mid + "T" + rest == date + ['T'] + after;
    Text.AfterFirstSplit(date, 'T', after);
    assert after == mid + ['T'] + rest;
    Text.UpToSplit(mid, 'T', rest);
  }

  /** "2024-05-01T08:30:00" gives "08:30". */
  lemma TimeOfDayExample()
    ensures TimeOfDay("2024-05-01T08:30:00") == Some("08:30")
  {
    var date, time := "2024-05-01", "08:30:00";
    assert 'T' !in date;
    assert 'T' !in time;
    assert "2024-05-01T08:30:00" == date + "T" + time;
    assert time[..5] == "08:30";
    TimeOfDayOfTimestamp(date, time);
  }

  /** `duration.substring(2).toLowerCase()`. */
  function ShortDuration(duration: string): (r: string)
    ensures |r| == if |duration| < 2 then 0 else |duration| - 2
    ensures forall i :: 0 <= i < |r| ==> !Text.IsUpper(r[i])
    ensures |duration| >= 2 ==> r == Text.LowerAscii(duration[2..])
    ensures |duration| < 2 ==> r == []
  {
    Text.LowerAscii(Text.Substring(duration, 2, |duration|))
  }

  /** Only the first two characters are dropped: "P1DT2H" gives "dt2h". */
  lemma ShortDurationDaysExample()
    ensures ShortDuration("P1DT2H") == "dt2h"
  {
    assert "P1DT2H"[2..] == "DT2H";
    assert Text.LowerAscii("DT2H") == "dt2h";
  }

  /** The "PT" marker of an ISO 8601 duration is dropped and the rest lowercased. */
  lemma ShortDurationDropsMarker(rest: string)
    ensures ShortDuration("PT" + rest) == Text.LowerAscii(rest)
  {
    assert ("PT" + rest)[2..] == rest;
  }

  /** "PT2H30M" is shown as "2h30m". */
  lemma ShortDurationExample()
    ensures ShortDuration("PT2H30M") == "2h30m"
  {
    ShortDurationDropsMarker("2H30M");
    assert "PT" + "2H30M" == "PT2H30M";
    assert Text.LowerAscii("2H30M") == "2h30m";
  }

  /** The `Flight` one offer maps to, or None where the mapping throws: no
      itinerary, no segment, or a timestamp without 'T'. */
  function MapOffer(params: SearchParams, offer: Offer): (r: Option<Flight>)
    ensures r.Some? <==>
      |offer.itineraries| > 0 && |offer.itineraries[0].segments| > 0 &&
      'T' in offer.itineraries[0].segments[0].departureAt &&
      'T' in offer.itineraries[0].segments[|offer.itineraries[0].segments| - 1].arrivalAt
    ensures r.Some? ==>
      var itinerary := offer.itineraries[0];
      var first := itinerary.segments[0];
      var last := itinerary.segments[|itinerary.segments| - 1];
      var f := r.value;
      f.id == offer.id &&
      f.airline == first.carrierCode && f.airlineCode == first.carrierCode &&
      f.flightNumber == first.carrierCode + first.number &&
      f.origin == params.origin && f.destination == params.destination &&
      Some(f.departureTime) == TimeOfDay(first.departureAt) &&
      Some(f.arrivalTime) == TimeOfDay(last.arrivalAt) &&
      f.duration == ShortDuration(itinerary.duration) &&
      f.price == offer.priceTotal && f.currency == offer.currency &&
      0 <= f.stops && f.stops + 1 == |itinerary.segments| &&
      f.cabin == Economy
  {
    if |offer.itineraries| == 0 || |offer.itineraries[0].segments| == 0 then None
    else
      var itinerary := offer.itineraries[0];
      var first := itinerary.segments[0];
      var last := itinerary.segments[|itinerary.segments| - 1];
      match (TimeOfDay(first.departureAt), TimeOfDay(last.arrivalAt))
      case (Some(departure), Some(arrival)) =>
        Some(Flight(
          offer.id,
          first.carrierCode,
          first.carrierCode,
          first.carrierCode + first.number,
          params.origin,
          params.destination,
          departure,
          arrival,
          ShortDuration(itinerary.duration),
          offer.priceTotal,
          offer.currency,
          |itinerary.segments| - 1,
          Economy))
      case _ => None
  }

  /** `data.map(...)`: one flight per offer, in order, or None as soon as one
      offer cannot be mapped. */
  function MapOffers(params: SearchParams, offers: seq<Offer>): (r: Option<seq<Flight>>)
    ensures r.Some? <==> forall k :: 0 <= k < |offers| ==> MapOffer(params, offers[k]).Some?
    ensures r.Some? ==> |r.value| == |offers|
    ensures r.Some? ==> forall k :: 0 <= k < |offers| ==> MapOffer(params, offers[k]) == Some(r.value[k])
  {
    if offers == [] then Some([])
    else
      match (MapOffer(params, offers[0]), MapOffers(params, offers[1..]))
      case (Some(f), Some(rest)) => Some([f] + rest)
      case _ => None
  }

  /** `searchFlights(params)`: the mapped offers when the fetch succeeded and
      every offer maps; otherwise the mock batch for the searched route. It
      never fails. */
  method SearchFlights(params: SearchParams, response: Response, draws: seq<MockData.FlightDraw>)
    returns (flights: seq<Flight>)
    requires MockData.ValidDraws(draws)
    ensures response.Ok? && MapOffers(params, response.offers).Some? ==>
      flights == MapOffers(params, response.offers).value
    ensures !(response.Ok? && MapOffers(params, response.offers).Some?) ==>
      |flights| == MockData.FlightCount && MockData.SortedByPrice(flights) &&
      multiset(flights) == multiset(MockData.MockBatch(params.origin, params.destination, draws))
  {
    if response.Ok? {
      var mapped := MapOffers(params, response.offers);
      if mapped.Some? {
        return mapped.value;
      }
    }
    flights := MockData.GenerateMockFlights(params.origin, params.destination, draws);
  }
}
