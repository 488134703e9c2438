/** The records shared by every part of the flight search front end. */
module Types {

  datatype Option<+T> = None | Some(value: T)

  /** The four cabin classes a flight may be sold in. */
  datatype CabinClass = Economy | Premium | Business | First

  /** One bookable itinerary offer. `price` is a whole amount in `currency`. */
  datatype Flight = Flight(
    id: string,
    airline: string,
    airlineCode: string,
    flightNumber: string,
    origin: string,
    destination: string,
    departureTime: string,
    arrivalTime: string,
    duration: string,
    price: int,
    currency: string,
    stops: int,
    cabin: CabinClass)

  /** The query a user submits from the search form. */
  datatype SearchParams = SearchParams(
    origin: string,
    destination: string,
    departureDate: string,
    returnDate: Option<string>,
    passengers: int,
    cabinClass: string)

  /** The filter state: a price ceiling, a required stop count (None = any)
      and the selected airline names (empty = all). */
  datatype FilterParams = FilterParams(maxPrice: int, stops: Option<int>, airlines: seq<string>)

  /** One point of the price trend series; `date` is a day number. */
  datatype PriceTrend = PriceTrend(date: int, price: int)
}
