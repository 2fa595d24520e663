/**
 * The `/itinerary` endpoint (`create_itinerary`): validation, the trip's
 * dates and duration, the flight sweep and ranking, the accommodation
 * searches the requested type calls for, the budget left after the
 * cheapest recommended flight, and the AI itinerary.
 */
module Coordinator {
  import opened Wrappers
  import opened JsonValues
  import opened Calendar
  import Text
  import Cities
  import Flights
  import ValueRanking
  import Lodging
  import Itinerary

  /**
   * A key that the endpoint reads with a default, `data.get(key, default)`:
   * absent, a JSON `null`, or a value.
   */
  datatype Field<T> = Absent | Null | Given(value: T)

  /**
   * `data.get(key, default)`: the default only for an absent key; a `null`
   * comes back as Python's `None`.
   */
  function Get<T>(f: Field<T>, default: T): (r: Option<T>)
    ensures r.None? <==> f.Null?
    ensures f.Absent? ==> r == Some(default)
    ensures f.Given? ==> r == Some(f.value)
  {
    match f
    case Absent => Some(default)
    case Null => None
    case Given(v) => Some(v)
  }

  /**
   * The request body. The fields read with `data.get(key)` are `None` for a
   * missing key and for a JSON `null` alike; the four read with a default
   * tell the two apart.
   */
  datatype TripRequest = TripRequest(
    destination: Option<string>,
    keywords: Field<seq<string>>,
    budget: Field<int>,
    origin: Option<string>,
    outboundDate: Option<string>,
    returnDate: Option<string>,
    accommodationType: Field<string>,
    durationDays: Field<int>)

  const DefaultBudget := 1000
  const DefaultDuration := 5
  const DefaultAccommodation := "hotel"
  /** The number of day offsets the flight sweep covers. */
  const FlexibleDays := 7

  /** Python truthiness of an optional string: present and not empty. */
  predicate Truthy(field: Option<string>) {
    field.Some? && field.value != ""
  }

  /** `all([destination, origin, outbound_date])`. */
  predicate HasRequiredFields(req: TripRequest) {
    Truthy(req.destination) && Truthy(req.origin) && Truthy(req.outboundDate)
  }

  /** `keywords`: `[]` when absent, `None` for a `null`. */
  function Keywords(req: TripRequest): Option<seq<string>> {
    Get(req.keywords, [])
  }

  /** `budget`: 1000 when absent, `None` for a `null`. */
  function Budget(req: TripRequest): Option<int> {
    Get(req.budget, DefaultBudget)
  }

  /** `accommodation_type`: "hotel" when absent, `None` for a `null`. */
  function Kind(req: TripRequest): Option<string> {
    Get(req.accommodationType, DefaultAccommodation)
  }

  /** The first and last days `datetime` can represent, 0001-01-01 and 9999-12-31, as day numbers. */
  const MinDate: Date := -719162
  const MaxDate: Date := 2932896

  /** The two bounds are those calendar dates. */
  lemma DateBounds()
    ensures MinDate == DaysFromCivil(1, 1, 1) && MaxDate == DaysFromCivil(9999, 12, 31)
  {
    assert DaysBeforeYear(0) == 0;
    assert DaysFromCivil(1, 1, 1) == DaysBeforeYear(0) + (153 * 10 + 2) / 5 - 719468;
    assert DaysBeforeYear(399) == 145731;
    assert DaysFromCivil(9999, 12, 31) == 24 * 146097 + DaysBeforeYear(399) + (153 * 9 + 2) / 5 + 30 - 719468;
  }

  /** The dates of a trip: day numbers, the length in days, and the return date's text. */
  datatype TripDates = TripDates(outbound: Date, ret: Date, duration: int, returnText: string)

  /**
   * The duration step. With a return date both dates are parsed and the
   * duration is their difference; without one the duration is
   * `duration_days` (5 by default) and the return date is the outbound
   * date moved by it, written back as text. `None` where `strptime` raises
   * `ValueError`, `timedelta` is given `None` (`TypeError`) or the addition
   * leaves `datetime`'s range.
   */
  function ResolveDates(outboundText: string, returnText: Option<string>, durationDays: Field<int>): Option<TripDates> {
    if Truthy(returnText) then GivenDates(ParseDate(outboundText), ParseDate(returnText.value), returnText.value)
    else DefaultDates(ParseDate(outboundText), Get(durationDays, DefaultDuration))
  }

  /** The dates when the request has a return date: both must have parsed. */
  function GivenDates(outbound: Option<Date>, ret: Option<Date>, returnText: string): Option<TripDates> {
    if outbound.Some? && ret.Some? then Some(TripDates(outbound.value, ret.value, ret.value - outbound.value, returnText))
    else None
  }

  /**
   * The dates when it has none: the outbound date must have parsed, the
   * duration must not be `None`, and the return date must exist.
   */
  function DefaultDates(outbound: Option<Date>, duration: Option<int>): Option<TripDates> {
    if outbound.Some? && duration.Some? && MinDate <= outbound.value + duration.value <= MaxDate
    then Some(TripDates(outbound.value, outbound.value + duration.value, duration.value, IsoDate(outbound.value + duration.value)))
    else None
  }

  /** With a return date: the trip runs between the two parsed dates, and fails exactly when one does not parse. */
  lemma ResolveGivenDates(outboundText: string, returnText: string, durationDays: Field<int>)
    requires returnText != ""
    ensures var r := ResolveDates(outboundText, Some(returnText), durationDays);
            && (r.None? <==> ParseDate(outboundText).None? || ParseDate(returnText).None?)
            && (r.Some? ==> && Some(r.value.outbound) == ParseDate(outboundText)
                            && Some(r.value.ret) == ParseDate(returnText)
                            && r.value.duration == r.value.ret - r.value.outbound
                            && r.value.returnText == returnText)
  {
  }

  /**
   * Without a return date: the trip lasts `duration_days` (5 when absent)
   * from the parsed outbound date, the return date is written as
   * `YYYY-MM-DD`, and it fails exactly when the outbound date does not
   * parse, `duration_days` is `null`, or the return date is out of
   * `datetime`'s range.
   */
  lemma ResolveDefaultDates(outboundText: string, returnText: Option<string>, durationDays: Field<int>)
    requires !Truthy(returnText)
    ensures var r := ResolveDates(outboundText, returnText, durationDays);
            var duration := if durationDays.Given? then durationDays.value else DefaultDuration;
            && (r.None? <==> ParseDate(outboundText).None? || durationDays.Null?
                             || !(MinDate <= ParseDate(outboundText).value + duration <= MaxDate))
            && (r.Some? ==> && Some(r.value.outbound) == ParseDate(outboundText)
                            && r.value.duration == duration
                            && r.value.ret == r.value.outbound + duration
                            && r.value.returnText == IsoDate(r.value.ret))
  {
  }

  /** Every date of the seven-day sweep stays within `datetime`'s range. */
  predicate SweepFits(dates: TripDates) {
    dates.outbound + FlexibleDays - 1 <= MaxDate && dates.ret + FlexibleDays - 1 <= MaxDate
  }

  /** What the hotel search is called with: the airport code and the two dates as given. */
  datatype HotelQuery = HotelQuery(destinationCode: string, checkIn: string, checkOut: string)

  /** The outside services, each as the function of its input it answers with. */
  datatype Services = Services(
    searchFlights: Flights.FlightQuery -> Flights.FlightResponse,
    searchHotels: HotelQuery -> Lodging.HotelResponse,
    webSearch: string -> Option<Lodging.SearchResponse>,
    ask: Itinerary.PromptInputs -> Option<string>,
    parse: string -> Option<Json>)

  /** The body of a successful response. */
  datatype Plan = Plan(
    destination: string,
    keywords: seq<string>,
    totalBudget: int,
    tripDuration: int,
    outboundDate: string,
    returnDate: string,
    flightOptions: seq<Flights.FlightRecord>,
    recommendedFlightCost: int,
    hotelOptions: seq<Lodging.HotelOption>,
    airbnbOptions: seq<Lodging.AirbnbOption>,
    accommodationType: Option<string>,
    remainingBudget: int,
    itinerary: Json)

  /** HTTP 400 with an error message, HTTP 500 from an uncaught exception, or HTTP 200. */
  datatype Response = BadRequest(error: string) | ServerError | Ok(plan: Plan)

  /** The calls made to the outside services, in the order of the source. */
  datatype Trace = Trace(
    flightQueries: seq<Flights.FlightQuery>,
    hotelQuery: Option<HotelQuery>,
    webQuery: Option<string>,
    prompt: Option<Itinerary.PromptInputs>)

  const NoCalls := Trace([], None, None, None)

  datatype Outcome = Outcome(response: Response, trace: Trace)

  /** `accommodation_type in ['hotel', 'mixed']`; `None` is in neither list. */
  predicate WantsHotels(kind: Option<string>) {
    kind == Some("hotel") || kind == Some("mixed")
  }

  /** `accommodation_type in ['airbnb', 'mixed']`. */
  predicate WantsAirbnb(kind: Option<string>) {
    kind == Some("airbnb") || kind == Some("mixed")
  }

  /**
   * The log lines take `len` of the lunch and dinner lists (an absent list
   * counts as empty); a value without a length raises `TypeError`.
   */
  predicate MealsCountable(itinerary: Json) {
    && itinerary.JObj? && "restaurants" in itinerary.fields && itinerary.fields["restaurants"].JObj?
    && var restaurants := itinerary.fields["restaurants"].fields;
       && ("lunch" in restaurants ==> Len(restaurants["lunch"]).Some?)
       && ("dinner" in restaurants ==> Len(restaurants["dinner"]).Some?)
  }

  /** The price of the first recommended flight, or 0 when there is none. */
  function FlightCost(best: seq<Flights.FlightRecord>): int {
    if best == [] then 0 else ValueRanking.Key(best[0])
  }

  /** The sweep's searches for a request with its dates. */
  function TripQueries(req: TripRequest, dates: TripDates): seq<Flights.FlightQuery>
    requires HasRequiredFields(req)
  {
    Flights.SweepQueries(req.origin.value, req.destination.value, dates.outbound, Some(dates.ret), FlexibleDays)
  }

  /** The flight records the sweep collects for a request with its dates. */
  function TripFlights(req: TripRequest, dates: TripDates, env: Services): seq<Flights.FlightRecord>
    requires HasRequiredFields(req)
  {
    Flights.Sweep(req.origin.value, req.destination.value, dates.outbound, Some(dates.ret), FlexibleDays, env.searchFlights)
  }

  /** The hotel search, if the accommodation type calls for it. */
  function HotelQueryFor(req: TripRequest, dates: TripDates): Option<HotelQuery>
    requires HasRequiredFields(req)
  {
    if WantsHotels(Kind(req))
    then Some(HotelQuery(req.destination.value, req.outboundDate.value, dates.returnText))
    else None
  }

  /** The Airbnb web search, if the accommodation type calls for it. */
  function WebQueryFor(req: TripRequest): Option<string>
    requires HasRequiredFields(req)
  {
    if WantsAirbnb(Kind(req))
    then Some(Lodging.AirbnbQuery(Cities.CityName(req.destination.value)))
    else None
  }

  /** The accommodation of a trip: the searches made and the options built from their replies. */
  datatype Stay = Stay(
    hotelQuery: Option<HotelQuery>,
    hotels: Option<Lodging.HotelResponse>,
    hotelOptions: seq<Lodging.HotelOption>,
    webQuery: Option<string>,
    airbnbOptions: seq<Lodging.AirbnbOption>)

  /** The hotel and Airbnb steps; the Airbnb stay lasts from the outbound to the return date. */
  function StayFor(req: TripRequest, dates: TripDates, env: Services): Stay
    requires HasRequiredFields(req)
  {
    var hotelQuery := HotelQueryFor(req, dates);
    var hotels := if hotelQuery.Some? then Some(env.searchHotels(hotelQuery.value)) else None;
    var webQuery := WebQueryFor(req);
    var listings := if webQuery.Some? then Lodging.AirbnbListings(env.webSearch(webQuery.value), dates.ret - dates.outbound) else [];
    Stay(hotelQuery, hotels, if hotels.Some? then Lodging.HotelOptions(hotels.value) else [],
         webQuery, Lodging.AirbnbOptions(listings))
  }

  /**
   * `budget - flight_cost` (line 608) and `', '.join(keywords)` in the
   * prompt raise `TypeError` on a `None`: both must have a value.
   */
  predicate PromptReady(req: TripRequest) {
    Budget(req).Some? && Keywords(req).Some?
  }

  /** What the itinerary prompt is built from: the budget left after the recommended flight. */
  function PromptOf(req: TripRequest, dates: TripDates, best: seq<Flights.FlightRecord>, stay: Stay): Itinerary.PromptInputs
    requires HasRequiredFields(req) && PromptReady(req)
  {
    Itinerary.PromptFor(req.destination.value, Keywords(req).value,
                        Budget(req).value - FlightCost(best), dates.duration, stay.hotels)
  }

  /** The response once the itinerary is known. */
  function Finish(req: TripRequest, dates: TripDates, best: seq<Flights.FlightRecord>, stay: Stay, itinerary: Json): Outcome
    requires HasRequiredFields(req) && PromptReady(req)
  {
    var budget := Budget(req).value;
    var trace := Trace(TripQueries(req, dates), stay.hotelQuery, stay.webQuery, Some(PromptOf(req, dates, best, stay)));
    if !MealsCountable(itinerary) then Outcome(ServerError, trace)
    else
      Outcome(Ok(Plan(
        Cities.CityName(req.destination.value),
        Keywords(req).value,
        budget,
        dates.duration,
        req.outboundDate.value,
        dates.returnText,
        best,
        FlightCost(best),
        stay.hotelOptions,
        stay.airbnbOptions,
        Kind(req),
        budget - FlightCost(best),
        itinerary)), trace)
  }

  /**
   * Everything after the flights were ranked into `best`: the stay, then a
   * server error if the budget or the keywords are `null`, else the
   * itinerary and the response.
   */
  function Accommodate(req: TripRequest, dates: TripDates, best: seq<Flights.FlightRecord>, env: Services): Outcome
    requires HasRequiredFields(req)
  {
    var stay := StayFor(req, dates, env);
    if !PromptReady(req) then Outcome(ServerError, Trace(TripQueries(req, dates), stay.hotelQuery, stay.webQuery, None))
    else
    var prompt := PromptOf(req, dates, best, stay);
    Finish(req, dates, best, stay,
           Itinerary.StructuredItinerary(Cities.CityName(req.destination.value), dates.duration, env.ask(prompt), env.parse))
  }

  /** The endpoint's answer to a request, and the calls it makes on the way. */
  function Handle(req: TripRequest, env: Services): Outcome {
    if !HasRequiredFields(req) then Outcome(BadRequest("Missing required fields"), NoCalls)
    else
      match ResolveDates(req.outboundDate.value, req.returnDate, req.durationDays)
      case None => Outcome(ServerError, NoCalls)
      case Some(dates) =>
        if !SweepFits(dates) then Outcome(ServerError, NoCalls)
        else
          match ValueRanking.FindBestValueFlights(TripFlights(req, dates, env))
          case None => Outcome(ServerError, Trace(TripQueries(req, dates), None, None, None))
          case Some(best) => Accommodate(req, dates, best, env)
  }

  /** The hotel search and its `hotel_options` loop, then the Airbnb search and its `airbnb_options` loop. */
  method FindStay(req: TripRequest, dates: TripDates, env: Services) returns (stay: Stay)
    requires HasRequiredFields(req)
    ensures stay == StayFor(req, dates, env)
  {
    var destination := req.destination.value;
    var kind := Kind(req);
    var hotelOptions: seq<Lodging.HotelOption> := [];
    var airbnbOptions: seq<Lodging.AirbnbOption> := [];
    var hotels: Option<Lodging.HotelResponse> := None;
    var hotelQuery: Option<HotelQuery> := None;
    var webQuery: Option<string> := None;
    if WantsHotels(kind) {
      hotelQuery := Some(HotelQuery(destination, req.outboundDate.value, dates.returnText));
      var reply := env.searchHotels(hotelQuery.value);
      hotels := Some(reply);
      hotelOptions := Lodging.CollectHotelOptions(reply);
    }
    if WantsAirbnb(kind) {
      var listings, query := Lodging.SearchAirbnb(destination, dates.outbound, dates.ret, env.webSearch);
      webQuery := Some(query);
      airbnbOptions := Lodging.CollectAirbnbOptions(listings);
    }
    stay := Stay(hotelQuery, hotels, hotelOptions, webQuery, airbnbOptions);
  }

  /** The steps after the ranking: the accommodation, the budget left, the itinerary, then the response. */
  method AccommodateTrip(req: TripRequest, dates: TripDates, best: seq<Flights.FlightRecord>, env: Services)
    returns (response: Response, trace: Trace)
    requires HasRequiredFields(req)
    ensures Outcome(response, trace) == Accommodate(req, dates, best, env)
  {
    var stay := FindStay(req, dates, env);
    var budget := Get(req.budget, DefaultBudget);
    var keywords := Get(req.keywords, []);
    assert budget == Budget(req) && keywords == Keywords(req);
    if budget.None? || keywords.None? {
      return ServerError, Trace(TripQueries(req, dates), stay.hotelQuery, stay.webQuery, None);
    }
    var remaining := budget.value - FlightCost(best);
    assert PromptOf(req, dates, best, stay)
      == Itinerary.PromptFor(req.destination.value, keywords.value, remaining, dates.duration, stay.hotels);
    var itinerary, prompt := Itinerary.CreateStructuredItinerary(req.destination.value, keywords.value, remaining,
                                                                 dates.duration, stay.hotels, env.ask, env.parse);
    assert prompt == PromptOf(req, dates, best, stay);
    var outcome := Finish(req, dates, best, stay, itinerary);
    response, trace := outcome.response, outcome.trace;
  }

  /**
   * `create_itinerary`: checks the required fields, works out the dates,
   * sweeps seven days of flights and ranks them, then hands over to the
   * accommodation and itinerary steps. Returns the response and the calls
   * made.
   */
  method CreateItinerary(req: TripRequest, env: Services) returns (response: Response, trace: Trace)
    ensures Outcome(response, trace) == Handle(req, env)
  {
    if !HasRequiredFields(req) {
      return BadRequest("Missing required fields"), NoCalls;
    }
    var resolved := ResolveDates(req.outboundDate.value, req.returnDate, req.durationDays);
    if resolved.None? || !SweepFits(resolved.value) {
      return ServerError, NoCalls;
    }
    var dates := resolved.value;
    var allFlights, queries := Flights.AnalyzeFlexibleDates(req.origin.value, req.destination.value, dates.outbound,
                                                            Some(dates.ret), FlexibleDays, env.searchFlights);
    var ranked := ValueRanking.FindBestValueFlights(allFlights);
    if ranked.None? {
      return ServerError, Trace(queries, None, None, None);
    }
    response, trace := AccommodateTrip(req, dates, ranked.value, env);
  }

  /** A request missing a required field is refused before any call; every other request passes validation. */
  lemma HandleValidates(req: TripRequest, env: Services)
    ensures Handle(req, env).response.BadRequest? <==> !HasRequiredFields(req)
    ensures !HasRequiredFields(req) ==>
              Handle(req, env) == Outcome(BadRequest("Missing required fields"), NoCalls)
  {
  }

  /** A date that does not parse fails the request with a server error, before any call. */
  lemma HandleBadDate(req: TripRequest, env: Services)
    requires HasRequiredFields(req) && ParseDate(req.outboundDate.value).None?
    ensures Handle(req, env) == Outcome(ServerError, NoCalls)
  {
  }

  /**
   * A `null` budget or keyword list fails the request before the AI call;
   * otherwise the itinerary always has restaurants, so only the lunch and
   * dinner lists can fail the log lines.
   */
  lemma AccommodateFails(req: TripRequest, dates: TripDates, best: seq<Flights.FlightRecord>, env: Services)
    requires HasRequiredFields(req)
    ensures var o := Accommodate(req, dates, best, env);
            && (o.response.ServerError? || (o.response.Ok? && Itinerary.Usable(o.response.plan.itinerary)))
            && (!PromptReady(req) ==> o.response.ServerError? && o.trace.prompt.None?)
  {
    if PromptReady(req) {
      var stay := StayFor(req, dates, env);
      var prompt := PromptOf(req, dates, best, stay);
      Itinerary.StructuredItineraryUsable(Cities.CityName(req.destination.value), dates.duration, env.ask(prompt), env.parse);
    }
  }

  /**
   * The accommodation searches follow the requested type: the hotel search
   * (with the dates as given) exactly for "hotel" and "mixed", the web
   * search exactly for "airbnb" and "mixed"; an absent type searches
   * hotels only and a `null` one searches nothing; options only from a
   * search that was made, and at most ten hotel options.
   */
  lemma StayMatchesKind(req: TripRequest, dates: TripDates, env: Services)
    requires HasRequiredFields(req)
    ensures var st := StayFor(req, dates, env);
            var kind := Kind(req);
            && (st.hotelQuery.Some? <==> kind == Some("hotel") || kind == Some("mixed"))
            && (st.hotelQuery.Some? ==> st.hotelQuery.value.checkIn == req.outboundDate.value
                                        && st.hotelQuery.value.checkOut == dates.returnText)
            && (st.webQuery.Some? <==> kind == Some("airbnb") || kind == Some("mixed"))
            && (req.accommodationType.Absent? ==> st.hotelQuery.Some? && st.webQuery.None?)
            && (req.accommodationType.Null? ==> st.hotelQuery.None? && st.webQuery.None?)
            && (st.hotels.Some? <==> st.hotelQuery.Some?)
            && (st.hotelQuery.None? ==> st.hotelOptions == [])
            && (st.webQuery.None? ==> st.airbnbOptions == [])
            && |st.hotelOptions| <= Lodging.MaxHotelOptions
  {
  }

  /**
   * Without a return date, a `null` duration makes `timedelta` raise: a
   * server error before any call.
   */
  lemma HandleNullDuration(req: TripRequest, env: Services)
    requires HasRequiredFields(req) && !Truthy(req.returnDate) && req.durationDays.Null?
    ensures Handle(req, env) == Outcome(ServerError, NoCalls)
  {
  }

  /**
   * A `null` accommodation type matches neither list: no accommodation
   * search, no hotels in the prompt, and the type echoed as `None`.
   */
  lemma HandleNullKind(req: TripRequest, env: Services)
    requires req.accommodationType.Null? && Handle(req, env).response.Ok?
    ensures var o := Handle(req, env);
            && o.trace.hotelQuery.None? && o.trace.webQuery.None?
            && o.trace.prompt.Some? && o.trace.prompt.value.hotelInfo == ""
            && o.response.plan.accommodationType.None?
            && o.response.plan.hotelOptions == [] && o.response.plan.airbnbOptions == []
  {
    HandleOk(req, env);
    var dates := ResolveDates(req.outboundDate.value, req.returnDate, req.durationDays).value;
    var best := ValueRanking.FindBestValueFlights(TripFlights(req, dates, env)).value;
    var stay := StayFor(req, dates, env);
    var itinerary := Itinerary.StructuredItinerary(Cities.CityName(req.destination.value), dates.duration,
                                                   env.ask(PromptOf(req, dates, best, stay)), env.parse);
    assert Handle(req, env) == Finish(req, dates, best, stay, itinerary);
    StayMatchesKind(req, dates, env);
    assert stay.hotels.None?;
    FinishOutcome(req, dates, best, stay, itinerary);
  }

  /** Every Airbnb option prices the stay at 75 a night from the outbound to the return date. */
  lemma StayAirbnbPrices(req: TripRequest, dates: TripDates, env: Services)
    requires HasRequiredFields(req)
    ensures forall a | a in StayFor(req, dates, env).airbnbOptions ::
              Text.DecimalValue(a.totalPrice) == Some((dates.ret - dates.outbound) * Lodging.NightlyEstimate)
  {
    var webQuery := WebQueryFor(req);
    if webQuery.Some? {
      Lodging.AirbnbOptionsPriced(env.webSearch(webQuery.value), dates.ret - dates.outbound);
    }
  }

  /**
   * Once the flights are ranked, the calls made are the seven flight
   * searches, the accommodation searches of the stay and one prompt, whose
   * budget is what is left after the recommended flight. A successful plan
   * names the destination's city, splits the budget into the recommended
   * flight and the rest, and carries the stay's options and the itinerary;
   * it fails only on meal lists without a length.
   */
  lemma FinishOutcome(req: TripRequest, dates: TripDates, best: seq<Flights.FlightRecord>, stay: Stay, itinerary: Json)
    requires HasRequiredFields(req) && PromptReady(req)
    ensures var o := Finish(req, dates, best, stay, itinerary);
            && |o.trace.flightQueries| == FlexibleDays
            && o.trace.hotelQuery == stay.hotelQuery && o.trace.webQuery == stay.webQuery
            && o.trace.prompt.Some?
            && o.trace.prompt.value.city == Cities.CityName(req.destination.value)
            && o.trace.prompt.value.budget == Budget(req).value - FlightCost(best)
            && o.trace.prompt.value.days == dates.duration
            && (o.response.Ok? <==> MealsCountable(itinerary))
            && (o.response.Ok? ==>
                  var p := o.response.plan;
                  && p.destination == Cities.CityName(req.destination.value)
                  && p.totalBudget == Budget(req).value
                  && p.keywords == Keywords(req).value
                  && p.accommodationType == Kind(req)
                  && p.remainingBudget + p.recommendedFlightCost == p.totalBudget
                  && p.flightOptions == best
                  && p.tripDuration == dates.duration
                  && p.hotelOptions == stay.hotelOptions && p.airbnbOptions == stay.airbnbOptions
                  && p.itinerary == itinerary)
  {
  }

  /**
   * A successful response got through every earlier step: validation, the
   * dates, the sweep's range and the ranking; and its budget and keywords
   * are not `null`.
   */
  lemma HandleOk(req: TripRequest, env: Services)
    requires Handle(req, env).response.Ok?
    ensures HasRequiredFields(req) && PromptReady(req)
    ensures var dates := ResolveDates(req.outboundDate.value, req.returnDate, req.durationDays);
            && dates.Some? && SweepFits(dates.value)
            && ValueRanking.FindBestValueFlights(TripFlights(req, dates.value, env)).Some?
  {
    if HasRequiredFields(req) {
      var dates := ResolveDates(req.outboundDate.value, req.returnDate, req.durationDays);
      if dates.Some? && SweepFits(dates.value) {
        assert ValueRanking.FindBestValueFlights(TripFlights(req, dates.value, env)).Some?;
      }
    }
  }

  /**
   * A successful response recommends the cheapest flights of the sweep:
   * the ranking's result, at most eight, cheapest first, each one found by
   * the sweep; the recommended cost is the first one's price, no more than
   * any other option's; and the seven searches were made.
   */
  lemma HandleFlights(req: TripRequest, env: Services, dates: TripDates, best: seq<Flights.FlightRecord>)
    requires HasRequiredFields(req)
    requires ResolveDates(req.outboundDate.value, req.returnDate, req.durationDays) == Some(dates) && SweepFits(dates)
    requires ValueRanking.FindBestValueFlights(TripFlights(req, dates, env)) == Some(best)
    requires Handle(req, env).response.Ok?
    ensures var all := TripFlights(req, dates, env);
            var p := Handle(req, env).response.plan;
            && p.flightOptions == best
            && |p.flightOptions| <= ValueRanking.MaxValueFlights
            && ValueRanking.SortedByPrice(p.flightOptions)
            && multiset(p.flightOptions) <= multiset(all)
            && (forall f | f in p.flightOptions :: p.recommendedFlightCost <= ValueRanking.Key(f))
            && Handle(req, env).trace.flightQueries == TripQueries(req, dates)
  {
    var stay := StayFor(req, dates, env);
    var itinerary := Itinerary.StructuredItinerary(Cities.CityName(req.destination.value), dates.duration,
                                                   env.ask(PromptOf(req, dates, best, stay)), env.parse);
    assert Handle(req, env) == Finish(req, dates, best, stay, itinerary);
    FinishOutcome(req, dates, best, stay, itinerary);
    RecommendedFlights(TripFlights(req, dates, env));
  }

  /**
   * The ranked flights are at most eight, cheapest first, each one among
   * the records; the recommended cost is no more than any option's price.
   */
  lemma RecommendedFlights(all: seq<Flights.FlightRecord>)
    requires ValueRanking.FindBestValueFlights(all).Some?
    ensures var best := ValueRanking.FindBestValueFlights(all).value;
            && |best| <= ValueRanking.MaxValueFlights
            && ValueRanking.SortedByPrice(best)
            && multiset(best) <= multiset(all)
            && (forall f | f in best :: FlightCost(best) <= ValueRanking.Key(f))
  {
    var best := ValueRanking.FindBestValueFlights(all).value;
    if all != [] {
      ValueRanking.BestValueSound(all);
    }
    forall f | f in best
      ensures FlightCost(best) <= ValueRanking.Key(f)
    {
      var j :| 0 <= j < |best| && best[j] == f;
      if j > 0 {
        assert ValueRanking.Key(best[0]) <= ValueRanking.Key(best[j]);
      }
    }
  }
}
