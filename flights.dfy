/**
 * The date sweep (`analyze_flexible_dates`): one flight search per day offset,
 * the first three `best_flights` of each reply flattened into records.
 */
module Flights {
  import opened Wrappers
  import opened JsonValues
  import opened Calendar
  import Text

  /** The `departure_airport` or `arrival_airport` object of a leg. */
  datatype AirportStop = AirportStop(id: Option<string>, time: Option<string>)

  /**
   * One entry of an offer's `flights` list. `otherKeys` counts the keys this
   * code never reads, which still make the dict non-empty (truthy).
   */
  datatype Leg = Leg(
    airline: Option<string>,
    airlineLogo: Option<string>,
    departureAirport: Option<AirportStop>,
    arrivalAirport: Option<AirportStop>,
    duration: Option<int>,
    layovers: Option<Json>,
    otherKeys: nat)

  /** One entry of a reply's `best_flights` list. */
  datatype Offer = Offer(price: Option<int>, totalDuration: Option<int>, legs: seq<Leg>)

  /**
   * The decoded reply of one flight search: `{"error": ...}` when the request
   * raised, otherwise the reply, with or without a `best_flights` key.
   */
  datatype FlightResponse =
    | SearchFailed(message: string)
    | SearchReply(bestFlights: Option<seq<Offer>>)

  /** The parameters of one flight search: route, outbound date and optional return date. */
  datatype FlightQuery = FlightQuery(origin: string, destination: string, outboundDate: Date, returnDate: Option<Date>)

  /** `return_duration`: the return leg's duration (possibly `None`), or `""` when there is no return leg. */
  datatype ReturnDuration = NoReturnLeg | ReturnLegDuration(minutes: Option<int>)

  /** The flat record the sweep emits for one offer. */
  datatype FlightRecord = FlightRecord(
    outboundDate: Date,
    returnDate: Option<Date>,
    price: Option<int>,
    totalDuration: Option<int>,
    airline: string,
    airlineLogo: string,
    outboundDepartureTime: string,
    outboundArrivalTime: string,
    outboundDepartureAirport: string,
    outboundArrivalAirport: string,
    outboundDuration: Option<int>,
    returnDepartureTime: string,
    returnArrivalTime: string,
    returnDuration: ReturnDuration,
    bookingLink: FlightsLink,
    layovers: Json)

  /** At most this many offers of each reply are kept. */
  const OffersPerDate := 3

  /** The `{}` that stands in for the outbound leg of an offer without legs. */
  const EmptyLeg := Leg(None, None, None, None, None, None, 0)

  /** A leg dict is falsy exactly when it has no keys at all. */
  predicate IsEmptyDict(leg: Leg) {
    leg == EmptyLeg
  }

  /** `stop.get("time", "")` on `leg.get(..., {})`. */
  function StopTime(stop: Option<AirportStop>): string {
    match stop
    case None => ""
    case Some(s) => s.time.GetOr("")
  }

  /** `stop.get("id", default)` on `leg.get(..., {})`. */
  function StopId(stop: Option<AirportStop>, default: string): string {
    match stop
    case None => default
    case Some(s) => s.id.GetOr(default)
  }

  /**
   * The Google Flights search link for a route and date, kept as its parts;
   * `Url` renders it. Nothing from the reply goes into it.
   */
  datatype FlightsLink = FlightsLink(origin: string, destination: string, date: Date) {
    /** The link text: the search URL with the route and the ISO date of the search. */
    function Url(): (url: string)
      ensures |url| >= |LinkPrefix| && url[..|LinkPrefix|] == LinkPrefix
      ensures var d := IsoDate(date); |url| >= |d| && url[|url| - |d|..] == d
    {
      LinkPrefix + origin + "+to+" + destination + "+on+" + IsoDate(date)
    }
  }

  const LinkPrefix := "https://www.google.com/travel/flights?q="

  /** The link of every record found by one search. */
  function BookingLink(origin: string, destination: string, date: Date): FlightsLink {
    FlightsLink(origin, destination, date)
  }

  /** The query for day offset `i` of a sweep that starts at `start` (and `ret`). */
  function QueryAt(origin: string, destination: string, start: Date, ret: Option<Date>, i: int): (q: FlightQuery)
    ensures q.outboundDate - start == i
    ensures q.returnDate.Some? <==> ret.Some?
    ensures ret.Some? ==> q.returnDate.value - ret.value == i
  {
    FlightQuery(origin, destination, start + i, if ret.Some? then Some(ret.value + i) else None)
  }

  /**
   * The record for one offer found by query `q`, with the defaults the
   * source gives missing fields: the search's dates and link, the offer's
   * price and duration, and the first leg's airline when it names one.
   */
  function NormalizeOffer(q: FlightQuery, offer: Offer): (r: FlightRecord)
    ensures r.outboundDate == q.outboundDate && r.returnDate == q.returnDate
    ensures r.price == offer.price && r.totalDuration == offer.totalDuration
    ensures r.bookingLink == BookingLink(q.origin, q.destination, q.outboundDate)
    ensures |offer.legs| > 0 && offer.legs[0].airline.Some? ==> r.airline == offer.legs[0].airline.value
  {
    var outbound := if |offer.legs| > 0 then offer.legs[0] else EmptyLeg;
    var hasReturn := |offer.legs| > 1 && !IsEmptyDict(offer.legs[1]);
    var back := if |offer.legs| > 1 then offer.legs[1] else EmptyLeg;
    FlightRecord(
      q.outboundDate,
      q.returnDate,
      offer.price,
      offer.totalDuration,
      outbound.airline.GetOr("Unknown"),
      outbound.airlineLogo.GetOr(""),
      StopTime(outbound.departureAirport),
      StopTime(outbound.arrivalAirport),
      StopId(outbound.departureAirport, q.origin),
      StopId(outbound.arrivalAirport, q.destination),
      outbound.duration,
      if hasReturn then StopTime(back.departureAirport) else "",
      if hasReturn then StopTime(back.arrivalAirport) else "",
      if hasReturn then ReturnLegDuration(back.duration) else NoReturnLeg,
      BookingLink(q.origin, q.destination, q.outboundDate),
      outbound.layovers.GetOr(JArr([])))
  }

  /** The offers of a reply that the sweep keeps: the first three of `best_flights`, if it has that key. */
  function TopOffers(reply: FlightResponse): (top: seq<Offer>)
    ensures |top| <= OffersPerDate
    ensures reply.SearchFailed? || reply.bestFlights.None? ==> top == []
    ensures reply.SearchReply? && reply.bestFlights.Some? ==>
              |top| <= |reply.bestFlights.value| && top == reply.bestFlights.value[..|top|]
  {
    match reply
    case SearchReply(Some(best)) => Text.Take(best, OffersPerDate)
    case _ => []
  }

  /** The records one search contributes, in the order the provider ranked the offers. */
  function OffsetRecords(q: FlightQuery, reply: FlightResponse): (rs: seq<FlightRecord>)
    ensures |rs| == |TopOffers(reply)|
    ensures forall r | r in rs ::
      && r.outboundDate == q.outboundDate && r.returnDate == q.returnDate
      && r.bookingLink == BookingLink(q.origin, q.destination, q.outboundDate)
  {
    var top := TopOffers(reply);
    seq(|top|, k requires 0 <= k < |top| => NormalizeOffer(q, top[k]))
  }

  /** All records of the first `n` day offsets, offset by offset: at most three per offset. */
  function Sweep(origin: string, destination: string, start: Date, ret: Option<Date>, n: int,
                 search: FlightQuery -> FlightResponse): (records: seq<FlightRecord>)
    ensures |records| <= OffersPerDate * (if n < 0 then 0 else n)
    decreases n
  {
    if n <= 0 then []
    else
      var q := QueryAt(origin, destination, start, ret, n - 1);
      Sweep(origin, destination, start, ret, n - 1, search) + OffsetRecords(q, search(q))
  }

  /**
   * The queries of the first `n` day offsets, in the order they are issued:
   * search `i` is for the same route, `i` days after the start and, when
   * there is one, `i` days after the return date.
   */
  function SweepQueries(origin: string, destination: string, start: Date, ret: Option<Date>, n: nat): (qs: seq<FlightQuery>)
    ensures |qs| == n
    ensures forall i | 0 <= i < n :: qs[i].origin == origin && qs[i].destination == destination
    ensures forall i | 0 <= i < n :: qs[i].outboundDate == start + i
    ensures forall i | 0 <= i < n :: (ret.None? ==> qs[i].returnDate.None?)
                                  && (ret.Some? ==> qs[i].returnDate == Some(ret.value + i))
  {
    seq(n, i => QueryAt(origin, destination, start, ret, i))
  }

  /**
   * `analyze_flexible_dates`: one search per offset `i < daysRange`, keeping
   * the first three best flights of each reply. Returns the records and the
   * searches it issued.
   */
  method AnalyzeFlexibleDates(origin: string, destination: string, start: Date, ret: Option<Date>,
                              daysRange: int, search: FlightQuery -> FlightResponse)
    returns (results: seq<FlightRecord>, queries: seq<FlightQuery>)
    ensures results == Sweep(origin, destination, start, ret, daysRange, search)
    ensures queries == SweepQueries(origin, destination, start, ret, if daysRange < 0 then 0 else daysRange)
  {
    results, queries := [], [];
    var n := if daysRange < 0 then 0 else daysRange;
    var i := 0;
    while i < n
      invariant 0 <= i <= n
      invariant results == Sweep(origin, destination, start, ret, i, search)
      invariant queries == SweepQueries(origin, destination, start, ret, i)
    {
      var q := QueryAt(origin, destination, start, ret, i);
      var reply := search(q);
      queries := queries + [q];
      ghost var found := OffsetRecords(q, reply);
      SweepStep(origin, destination, start, ret, i, search);
      SweepQueriesStep(origin, destination, start, ret, i);
      if reply.SearchReply? && reply.bestFlights.Some? {
        var top := Text.Take(reply.bestFlights.value, OffersPerDate);
        assert top == TopOffers(reply);
        var j := 0;
        while j < |top|
          invariant 0 <= j <= |top|
          invariant results == Sweep(origin, destination, start, ret, i, search) + found[..j]
        {
          assert found[..j + 1] == found[..j] + [NormalizeOffer(q, top[j])];
          results := results + [NormalizeOffer(q, top[j])];
          j := j + 1;
        }
        assert found[..j] == found;
      } else {
        assert found == [];
      }
      i := i + 1;
    }
    assert i == n;
    if daysRange < 0 {
      assert Sweep(origin, destination, start, ret, daysRange, search) == [];
    }
  }

  /** One more offset appends that offset's query. */
  lemma SweepQueriesStep(origin: string, destination: string, start: Date, ret: Option<Date>, i: nat)
    ensures SweepQueries(origin, destination, start, ret, i + 1)
              == SweepQueries(origin, destination, start, ret, i) + [QueryAt(origin, destination, start, ret, i)]
  {
  }

  /** One more offset appends that offset's records. */
  lemma SweepStep(origin: string, destination: string, start: Date, ret: Option<Date>, i: int,
                  search: FlightQuery -> FlightResponse)
    requires 0 <= i
    ensures var q := QueryAt(origin, destination, start, ret, i);
            Sweep(origin, destination, start, ret, i + 1, search)
              == Sweep(origin, destination, start, ret, i, search) + OffsetRecords(q, search(q))
  {
  }

  /** When every search returns at least three best flights the sweep has exactly three per offset. */
  lemma {:induction false} SweepFull(origin: string, destination: string, start: Date, ret: Option<Date>, n: nat,
                                     search: FlightQuery -> FlightResponse)
    requires forall i | 0 <= i < n ::
      var reply := search(QueryAt(origin, destination, start, ret, i));
      reply.SearchReply? && reply.bestFlights.Some? && |reply.bestFlights.value| >= OffersPerDate
    ensures |Sweep(origin, destination, start, ret, n, search)| == OffersPerDate * n
  {
    if n > 0 {
      SweepFull(origin, destination, start, ret, n - 1, search);
    }
  }

  /** A search that failed, or whose reply has no `best_flights`, contributes no record. */
  lemma {:induction false} SweepAllFailed(origin: string, destination: string, start: Date, ret: Option<Date>, n: int,
                                          search: FlightQuery -> FlightResponse)
    requires forall i | 0 <= i < n ::
      var reply := search(QueryAt(origin, destination, start, ret, i));
      reply.SearchFailed? || reply.bestFlights.None?
    ensures Sweep(origin, destination, start, ret, n, search) == []
    decreases n
  {
    if n > 0 {
      SweepAllFailed(origin, destination, start, ret, n - 1, search);
    }
  }

  /** The sweep of a shorter window is a prefix of the sweep of a longer one. */
  lemma {:induction false} SweepPrefix(origin: string, destination: string, start: Date, ret: Option<Date>, m: int, n: int,
                                       search: FlightQuery -> FlightResponse)
    requires m <= n
    ensures var short := Sweep(origin, destination, start, ret, m, search);
            var long := Sweep(origin, destination, start, ret, n, search);
            |short| <= |long| && long[..|short|] == short
    decreases n
  {
    if m < n && n > 0 {
      SweepPrefix(origin, destination, start, ret, m, n - 1, search);
    }
  }

  /**
   * Record `r` was found by the search for some offset `i < n` of the window:
   * its outbound date is `start + i`, its return date is moved by the same
   * offset (or absent), and its booking link is built from the route and that
   * outbound date only.
   */
  ghost predicate FromWindow(r: FlightRecord, origin: string, destination: string, start: Date, ret: Option<Date>, n: int) {
    && InWindow(r, start, ret, n)
    && r.bookingLink == BookingLink(origin, destination, r.outboundDate)
  }

  /** The dates of record `r` are those of the search for some offset `i < n`. */
  ghost predicate InWindow(r: FlightRecord, start: Date, ret: Option<Date>, n: int) {
    && 0 <= r.outboundDate - start < n
    && r.returnDate == (if ret.Some? then Some(ret.value + (r.outboundDate - start)) else None)
  }

  /** Every record of the sweep comes from a search of its window, with that search's dates and link. */
  lemma {:induction false} SweepRecordDates(origin: string, destination: string, start: Date, ret: Option<Date>, n: int,
                                            search: FlightQuery -> FlightResponse)
    ensures forall r | r in Sweep(origin, destination, start, ret, n, search) ::
      FromWindow(r, origin, destination, start, ret, n)
    decreases n
  {
    if n > 0 {
      SweepRecordDates(origin, destination, start, ret, n - 1, search);
      var s0 := Sweep(origin, destination, start, ret, n - 1, search);
      var q := QueryAt(origin, destination, start, ret, n - 1);
      var tail := OffsetRecords(q, search(q));
      forall r | r in s0 + tail ensures FromWindow(r, origin, destination, start, ret, n) {
        if r in s0 {
          assert FromWindow(r, origin, destination, start, ret, n - 1);
        } else {
          assert r in tail;
          assert q.origin == origin && q.destination == destination && r.outboundDate == q.outboundDate;
          assert r.bookingLink == BookingLink(q.origin, q.destination, q.outboundDate);
        }
      }
    }
  }

  /** Outbound dates never decrease along `s`. */
  ghost predicate OrderedByDate(s: seq<FlightRecord>) {
    forall a, b | 0 <= a < b < |s| :: s[a].outboundDate <= s[b].outboundDate
  }

  /** Records come in order of offset: outbound dates never decrease along the sweep. */
  lemma {:induction false} SweepOrderedByDate(origin: string, destination: string, start: Date, ret: Option<Date>, n: int,
                                              search: FlightQuery -> FlightResponse)
    ensures OrderedByDate(Sweep(origin, destination, start, ret, n, search))
    decreases n
  {
    if n > 0 {
      var s0 := Sweep(origin, destination, start, ret, n - 1, search);
      var q := QueryAt(origin, destination, start, ret, n - 1);
      var tail := OffsetRecords(q, search(q));
      SweepOrderedByDate(origin, destination, start, ret, n - 1, search);
      SweepRecordDates(origin, destination, start, ret, n - 1, search);
      assert forall r | r in s0 :: r.outboundDate < q.outboundDate by {
        forall r | r in s0 ensures r.outboundDate < q.outboundDate {
          assert FromWindow(r, origin, destination, start, ret, n - 1);
        }
      }
      ConcatOrdered(s0, tail, q.outboundDate);
    }
  }

  /** Appending records of one later date to an ordered sequence keeps it ordered. */
  lemma ConcatOrdered(s0: seq<FlightRecord>, tail: seq<FlightRecord>, d: Date)
    requires OrderedByDate(s0)
    requires forall r | r in s0 :: r.outboundDate < d
    requires forall r | r in tail :: r.outboundDate == d
    ensures OrderedByDate(s0 + tail)
  {
    var s := s0 + tail;
    forall a, b | 0 <= a < b < |s| ensures s[a].outboundDate <= s[b].outboundDate {
      if b < |s0| {
        assert s[a] == s0[a] && s[b] == s0[b];
      } else {
        assert s[b] == tail[b - |s0|] && tail[b - |s0|] in tail;
        if a < |s0| {
          assert s[a] == s0[a] && s0[a] in s0;
        } else {
          assert s[a] == tail[a - |s0|] && tail[a - |s0|] in tail;
        }
      }
    }
  }

  /**
   * Within one offset the records follow the provider's ranking: the `k`-th
   * record of an offset is built from the `k`-th best flight of its reply.
   */
  lemma OffsetRecordsInRankOrder(q: FlightQuery, reply: FlightResponse, k: int)
    requires reply.SearchReply? && reply.bestFlights.Some? && 0 <= k < |OffsetRecords(q, reply)|
    ensures OffsetRecords(q, reply)[k] == NormalizeOffer(q, reply.bestFlights.value[k])
  {
  }

  /**
   * The defaults for missing leg data: without legs the airline is "Unknown",
   * times and logo are empty and the airports are the searched route; with
   * fewer than two legs every return-leg field is empty.
   */
  lemma NormalizeDefaults(q: FlightQuery, offer: Offer)
    ensures var r := NormalizeOffer(q, offer);
            && (|offer.legs| < 2 ==> r.returnDepartureTime == "" && r.returnArrivalTime == "" && r.returnDuration == NoReturnLeg)
            && (offer.legs == [] ==>
                  && r.airline == "Unknown" && r.airlineLogo == ""
                  && r.outboundDepartureTime == "" && r.outboundArrivalTime == ""
                  && r.outboundDepartureAirport == q.origin && r.outboundArrivalAirport == q.destination
                  && r.outboundDuration.None? && r.layovers == JArr([]))
  {
  }

  /** The booking link does not depend on the offer: two offers on the same search get the same link. */
  lemma BookingLinkIgnoresOffer(q: FlightQuery, a: Offer, b: Offer)
    ensures NormalizeOffer(q, a).bookingLink == NormalizeOffer(q, b).bookingLink == BookingLink(q.origin, q.destination, q.outboundDate)
  {
  }
}
