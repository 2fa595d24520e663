/**
 * Accommodation: the hotel search reply and the hotel options built from it
 * (`create_itinerary`), and the Airbnb listings found through a web search
 * (`search_airbnb`) with the options built from them.
 */
module Lodging {
  import opened Wrappers
  import opened JsonValues
  import opened Calendar
  import Text
  import Cities

  /** The `rate_per_night` or `total_rate` object of a hotel. */
  datatype Rate = Rate(lowest: Option<string>)

  /** One entry of a hotel reply's `properties` list; `None` is a missing key. */
  datatype HotelProperty = HotelProperty(
    name: Option<string>,
    ratePerNight: Option<Rate>,
    totalRate: Option<Rate>,
    overallRating: Option<Json>,
    reviews: Option<Json>,
    link: Option<string>,
    description: Option<string>,
    images: Option<seq<Json>>,
    amenities: Option<seq<Json>>)

  /**
   * The decoded reply of a hotel search: `{"error": ...}` when the request
   * raised, otherwise the reply, with or without a `properties` key.
   */
  datatype HotelResponse =
    | HotelsFailed(message: string)
    | HotelReply(properties: Option<seq<HotelProperty>>)

  /** At most this many hotels become options. */
  const MaxHotelOptions := 10
  /** Hotel descriptions are cut to this many characters. */
  const DescriptionLength := 200
  const MaxImages := 3
  const MaxAmenities := 5

  /** The option the response lists for a hotel (`"type": "hotel"`). */
  datatype HotelOption = HotelOption(
    name: string,
    pricePerNight: string,
    totalPrice: string,
    rating: Json,
    reviews: Json,
    link: string,
    description: string,
    images: seq<Json>,
    amenities: seq<Json>)

  /** `rate.get("lowest", "N/A")` on `hotel.get(..., {})`. */
  function Lowest(rate: Option<Rate>): string {
    match rate
    case None => "N/A"
    case Some(r) => r.lowest.GetOr("N/A")
  }

  /** The option for one hotel, with the defaults and truncations the source applies. */
  function NormalizeHotel(h: HotelProperty): (o: HotelOption)
    ensures |o.description| <= DescriptionLength && |o.images| <= MaxImages && |o.amenities| <= MaxAmenities
  {
    HotelOption(
      h.name.GetOr("N/A"),
      Lowest(h.ratePerNight),
      Lowest(h.totalRate),
      h.overallRating.GetOr(JStr("N/A")),
      h.reviews.GetOr(Int(0)),
      h.link.GetOr("#"),
      Text.Take(h.description.GetOr(""), DescriptionLength),
      Text.Take(h.images.GetOr([]), MaxImages),
      Text.Take(h.amenities.GetOr([]), MaxAmenities))
  }

  /** The hotels a reply lists, if it has a `properties` key. */
  function Properties(reply: HotelResponse): seq<HotelProperty> {
    if reply.HotelReply? && reply.properties.Some? then reply.properties.value else []
  }

  /** The hotel options for a reply: the first ten hotels, normalized, in order. */
  function HotelOptions(reply: HotelResponse): (options: seq<HotelOption>)
    ensures |options| <= MaxHotelOptions
  {
    var top := Text.Take(Properties(reply), MaxHotelOptions);
    seq(|top|, k requires 0 <= k < |top| => NormalizeHotel(top[k]))
  }

  /** The `hotel_options` loop of `create_itinerary`. */
  method CollectHotelOptions(reply: HotelResponse) returns (options: seq<HotelOption>)
    ensures options == HotelOptions(reply)
  {
    options := [];
    if reply.HotelReply? && reply.properties.Some? {
      var top := Text.Take(reply.properties.value, MaxHotelOptions);
      var k := 0;
      while k < |top|
        invariant 0 <= k <= |top|
        invariant options == HotelOptions(reply)[..k]
      {
        options := options + [NormalizeHotel(top[k])];
        k := k + 1;
      }
    }
  }

  /**
   * Option `k` is hotel `k` of the reply: the options keep the reply's
   * order, a hotel's fields come through, and a missing one takes its
   * default ("N/A" for the name, the prices and the rating, 0 reviews,
   * "#" for the link, nothing for the rest).
   */
  lemma HotelOptionsFaithful(reply: HotelResponse, k: int)
    requires 0 <= k < |HotelOptions(reply)|
    ensures k < |Properties(reply)|
    ensures var h, o := Properties(reply)[k], HotelOptions(reply)[k];
            && (h.name.Some? ==> o.name == h.name.value) && (h.name.None? ==> o.name == "N/A")
            && (h.link.Some? ==> o.link == h.link.value) && (h.link.None? ==> o.link == "#")
            && (h.ratePerNight.Some? && h.ratePerNight.value.lowest.Some? ==> o.pricePerNight == h.ratePerNight.value.lowest.value)
            && (h.ratePerNight.None? || h.ratePerNight.value.lowest.None? ==> o.pricePerNight == "N/A")
            && (h.totalRate.Some? && h.totalRate.value.lowest.Some? ==> o.totalPrice == h.totalRate.value.lowest.value)
            && (h.totalRate.None? || h.totalRate.value.lowest.None? ==> o.totalPrice == "N/A")
            && (h.overallRating.Some? ==> o.rating == h.overallRating.value) && (h.overallRating.None? ==> o.rating == JStr("N/A"))
            && (h.reviews.Some? ==> o.reviews == h.reviews.value) && (h.reviews.None? ==> o.reviews == Int(0))
    ensures var h, o := Properties(reply)[k], HotelOptions(reply)[k];
            var description, images, amenities := h.description.GetOr(""), h.images.GetOr([]), h.amenities.GetOr([]);
            && o.description == description[..|o.description|]
            && |o.description| == (if |description| < DescriptionLength then |description| else DescriptionLength)
            && o.images == images[..|o.images|] && |o.images| == (if |images| < MaxImages then |images| else MaxImages)
            && o.amenities == amenities[..|o.amenities|]
            && |o.amenities| == (if |amenities| < MaxAmenities then |amenities| else MaxAmenities)
  {
  }

  /** A reply without hotels, or a failed search, gives no options; ten hotels or more give ten. */
  lemma HotelOptionsCount(reply: HotelResponse)
    ensures |HotelOptions(reply)| == if |Properties(reply)| < MaxHotelOptions then |Properties(reply)| else MaxHotelOptions
    ensures reply.HotelsFailed? ==> HotelOptions(reply) == []
  {
  }

  /** One organic result of a web search. */
  datatype OrganicResult = OrganicResult(title: Option<string>, snippet: Option<string>, link: Option<string>)

  /** The decoded reply of a web search, with or without an `organic_results` key. */
  datatype SearchResponse = SearchResponse(organicResults: Option<seq<OrganicResult>>)

  /** One Airbnb listing as `search_airbnb` returns it. */
  datatype Listing = Listing(
    name: string,
    description: string,
    link: string,
    pricePerNight: string,
    totalPrice: string,
    kind: string)

  /** At most this many search results are looked at. */
  const MaxSearchResults := 8
  /** The nightly price assumed for every listing. */
  const NightlyEstimate := 75

  /** The web query for a city's listings. */
  function AirbnbQuery(city: string): string {
    "airbnb " + city
  }

  /** `"airbnb" in result.get("link", "").lower()`. */
  predicate IsAirbnbLink(r: OrganicResult) {
    Text.Contains(Text.Lower(r.link.GetOr("")), "airbnb")
  }

  /** The listing for a result that passed the filter; the stay is `nights` long. */
  function ToListing(r: OrganicResult, nights: int): Listing {
    Listing(r.title.GetOr("Airbnb Listing"), r.snippet.GetOr(""), r.link.GetOr("#"),
            "50-150", Text.IntToString(nights * NightlyEstimate), "Entire home/Private room")
  }

  /** The listings among `results`, in order. */
  function Listings(results: seq<OrganicResult>, nights: int): seq<Listing> {
    if results == [] then []
    else
      var last := results[|results| - 1];
      Listings(results[..|results| - 1], nights)
        + (if IsAirbnbLink(last) then [ToListing(last, nights)] else [])
  }

  /** What `search_airbnb` returns for a reply (`None`: the request raised). */
  function AirbnbListings(reply: Option<SearchResponse>, nights: int): seq<Listing> {
    if reply.Some? && reply.value.organicResults.Some? then
      Listings(Text.Take(reply.value.organicResults.value, MaxSearchResults), nights)
    else []
  }

  /**
   * `search_airbnb`: one web search for the destination's city, then the
   * results among the first eight whose link mentions Airbnb. The nights are
   * the days between check-in and check-out. Returns the listings and the
   * query sent.
   */
  method SearchAirbnb(destinationCode: string, checkIn: Date, checkOut: Date, webSearch: string -> Option<SearchResponse>)
    returns (listings: seq<Listing>, query: string)
    ensures query == AirbnbQuery(Cities.CityName(destinationCode))
    ensures listings == AirbnbListings(webSearch(query), checkOut - checkIn)
  {
    var nights := checkOut - checkIn;
    query := AirbnbQuery(Cities.CityName(destinationCode));
    var reply := webSearch(query);
    listings := [];
    if reply.Some? && reply.value.organicResults.Some? {
      var top := Text.Take(reply.value.organicResults.value, MaxSearchResults);
      var k := 0;
      while k < |top|
        invariant 0 <= k <= |top|
        invariant listings == Listings(top[..k], nights)
      {
        assert top[..k + 1][..k] == top[..k];
        if IsAirbnbLink(top[k]) {
          listings := listings + [ToListing(top[k], nights)];
        }
        k := k + 1;
      }
      assert top[..k] == top;
    }
  }

  /**
   * Every listing comes from a result with an Airbnb link, keeps that
   * link, and prices the stay at 75 a night; there is at most one per
   * result.
   */
  lemma {:induction false} ListingsSound(results: seq<OrganicResult>, nights: int)
    ensures |Listings(results, nights)| <= |results|
    ensures forall l | l in Listings(results, nights) ::
              exists r | r in results :: IsAirbnbLink(r) && l == ToListing(r, nights) && r.link == Some(l.link)
    ensures forall l | l in Listings(results, nights) :: Text.DecimalValue(l.totalPrice) == Some(nights * NightlyEstimate)
    decreases |results|
  {
    if results != [] {
      ListingsSound(results[..|results| - 1], nights);
      Text.IntToStringRoundTrip(nights * NightlyEstimate);
      forall r | r in results[..|results| - 1] ensures r in results { }
    }
  }

  /**
   * The listings of two runs of results are those of the first run followed
   * by those of the second: the filter keeps the order of the results.
   */
  lemma {:induction false} ListingsAppend(a: seq<OrganicResult>, b: seq<OrganicResult>, nights: int)
    ensures Listings(a + b, nights) == Listings(a, nights) + Listings(b, nights)
    decreases |b|
  {
    if b == [] {
      assert a + b == a;
    } else {
      assert (a + b)[..|a + b| - 1] == a + b[..|b| - 1];
      ListingsAppend(a, b[..|b| - 1], nights);
    }
  }

  /** A result before another with an Airbnb link lists before it. */
  lemma ListingsOrdered(results: seq<OrganicResult>, nights: int, i: int, j: int)
    requires 0 <= i < j < |results| && IsAirbnbLink(results[i]) && IsAirbnbLink(results[j])
    ensures exists p, q | 0 <= p < q < |Listings(results, nights)| ::
              Listings(results, nights)[p] == ToListing(results[i], nights)
              && Listings(results, nights)[q] == ToListing(results[j], nights)
  {
    var front, back := results[..i + 1], results[i + 1..];
    assert results == front + back;
    ListingsAppend(front, back, nights);
    assert front[..i] == results[..i];
    var lf := Listings(front, nights);
    assert lf[|lf| - 1] == ToListing(results[i], nights);
    ListingsComplete(back, nights, j - i - 1);
    var lb := Listings(back, nights);
    var k :| 0 <= k < |lb| && lb[k] == ToListing(results[j], nights);
    var all := Listings(results, nights);
    assert all[|lf| - 1] == ToListing(results[i], nights) && all[|lf| + k] == ToListing(results[j], nights);
  }

  /** Every result with an Airbnb link among the first eight gives a listing. */
  lemma {:induction false} ListingsComplete(results: seq<OrganicResult>, nights: int, k: int)
    requires 0 <= k < |results| && IsAirbnbLink(results[k])
    ensures ToListing(results[k], nights) in Listings(results, nights)
    decreases |results|
  {
    if k < |results| - 1 {
      ListingsComplete(results[..|results| - 1], nights, k);
    }
  }

  /**
   * The search yields at most eight listings, none when it raised or found
   * no organic results, and results after the eighth are never looked at.
   */
  lemma AirbnbListingsBound(reply: Option<SearchResponse>, nights: int)
    ensures |AirbnbListings(reply, nights)| <= MaxSearchResults
    ensures reply.None? || reply.value.organicResults.None? ==> AirbnbListings(reply, nights) == []
    ensures reply.Some? && reply.value.organicResults.Some? && |reply.value.organicResults.value| > MaxSearchResults ==>
              var rs := reply.value.organicResults.value;
              AirbnbListings(reply, nights) == AirbnbListings(Some(SearchResponse(Some(rs[..MaxSearchResults]))), nights)
  {
    if reply.Some? && reply.value.organicResults.Some? {
      var rs := reply.value.organicResults.value;
      ListingsSound(Text.Take(rs, MaxSearchResults), nights);
      if |rs| > MaxSearchResults {
        assert Text.Take(rs[..MaxSearchResults], MaxSearchResults) == rs[..MaxSearchResults] == Text.Take(rs, MaxSearchResults);
      }
    }
  }

  /** The capitals of a link do not matter, and a result without a link never passes. */
  lemma AirbnbLinkIgnoresCase()
    ensures IsAirbnbLink(OrganicResult(None, None, Some("https://www.AIRBNB.com/rooms/1")))
    ensures !IsAirbnbLink(OrganicResult(Some("airbnb"), None, None))
  {
    var lowered := Text.Lower("https://www.AIRBNB.com/rooms/1");
    Text.LowerCases("https://www.AIRBNB.com/rooms/1");
    assert lowered[12] == 'a' && lowered[13] == 'i' && lowered[14] == 'r';
    assert lowered[15] == 'b' && lowered[16] == 'n' && lowered[17] == 'b';
    assert lowered[12..18] == "airbnb";
    assert Text.OccursAt(lowered, "airbnb", 12);
    Text.OccurrenceContains(lowered, "airbnb", 12);
  }

  /** The option the response lists for an Airbnb listing (`"type": "airbnb"`). */
  datatype AirbnbOption = AirbnbOption(
    name: string,
    pricePerNight: string,
    totalPrice: string,
    description: string,
    link: string,
    propertyType: string)

  function ToAirbnbOption(l: Listing): AirbnbOption {
    AirbnbOption(l.name, l.pricePerNight, l.totalPrice, l.description, l.link, l.kind)
  }

  /** The options for some listings, one per listing, in order. */
  function AirbnbOptions(listings: seq<Listing>): (options: seq<AirbnbOption>)
    ensures |options| == |listings|
  {
    seq(|listings|, k requires 0 <= k < |listings| => ToAirbnbOption(listings[k]))
  }

  /** Every Airbnb option of a search reply prices the stay at 75 a night. */
  lemma AirbnbOptionsPriced(reply: Option<SearchResponse>, nights: int)
    ensures forall a | a in AirbnbOptions(AirbnbListings(reply, nights)) ::
              Text.DecimalValue(a.totalPrice) == Some(nights * NightlyEstimate)
  {
    var listings := AirbnbListings(reply, nights);
    if reply.Some? && reply.value.organicResults.Some? {
      ListingsSound(Text.Take(reply.value.organicResults.value, MaxSearchResults), nights);
    }
    var options := AirbnbOptions(listings);
    forall a | a in options
      ensures Text.DecimalValue(a.totalPrice) == Some(nights * NightlyEstimate)
    {
      var k :| 0 <= k < |listings| && options[k] == a;
      assert listings[k] in listings;
    }
  }

  /** The `airbnb_options` loop of `create_itinerary`: one option per listing, in order. */
  method CollectAirbnbOptions(listings: seq<Listing>) returns (options: seq<AirbnbOption>)
    ensures |options| == |listings|
    ensures forall k | 0 <= k < |listings| :: options[k] == ToAirbnbOption(listings[k])
    ensures options == AirbnbOptions(listings)
  {
    options := [];
    var k := 0;
    while k < |listings|
      invariant 0 <= k <= |listings|
      invariant |options| == k
      invariant forall i | 0 <= i < k :: options[i] == ToAirbnbOption(listings[i])
    {
      options := options + [ToAirbnbOption(listings[k])];
      k := k + 1;
    }
  }
}
