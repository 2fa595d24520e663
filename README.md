# Travel planning agent: a verified model

This project models the core of `flight_agent.py`, a Flask service that
plans a trip. Its `/itinerary` endpoint works in these steps:

1. It validates the request.
2. It works out the trip's dates and length.
3. It searches seven consecutive departure days of flights and ranks the
   results by value.
4. It looks for hotels and/or Airbnb listings, depending on the requested
   accommodation type.
5. It subtracts the cheapest recommended flight from the budget.
6. It asks an AI model for a structured itinerary, repairing the reply or
   falling back to a built-in default itinerary.

The modules follow the program's structure:

- `Cities` is the airport-to-city table and `get_city_name`.
- `Calendar` models `datetime` dates as day numbers. It covers
  `strptime("%Y-%m-%d")` as a parser with Python's exact field
  alternatives, and `strftime("%Y-%m-%d")` as ISO 8601 text. It proves
  the round trips between them.
- `Flights` models `analyze_flexible_dates`. There are seven searches, one
  per day offset, and the first three offers of each reply become flight
  records.
- `ValueRanking` models `find_best_value_flights`. It is a stable sort by
  price, a filter at 120% of the mean non-zero price, and the first eight
  survivors.
- `Lodging` models the hotel options of `create_itinerary` and the
  `search_airbnb` filter.
- `Defaults` holds the default restaurants, the default daily itinerary
  and the fallback itinerary.
- `Itinerary` models `create_structured_itinerary`. It covers the hotel
  digest for the prompt, the removal of code fences from the reply, the
  repair of the parsed document, and the fallback.
- `Coordinator` models the endpoint `create_itinerary`.
- `Text`, `JsonValues` and `Wrappers` are helpers for strings, JSON values
  and options.

Outside services are parameters, each a function from its request to its
reply:

- the flight search;
- the hotel search;
- the web search;
- the AI call;
- `json.loads`.

A reply of `None`, or an error variant, stands for a call that raised.
The endpoint returns its response together with a trace of the calls it
made. This lets the model state which searches a request causes.

Where the source loops, the model is a method with a loop. Each such
method is proved equal to a specification function:

- the sweep over day offsets;
- the hotel and Airbnb option loops;
- the default itinerary's day loop;
- the hotel digest loop.

Properties are then proved about those functions.

## Model

| member | source | states |
|---|---|---|
| Cities.CityName | flight_agent.py:16-60 | a listed airport code maps to its city from the table; any other code is returned unchanged |
| Cities.CityNameNonEmpty | flight_agent.py:58-60 | a non-empty code never yields an empty name, because every city in the table is non-empty |
| Cities.CityNameListed | flight_agent.py:16-60 | BCN is "Barcelona, Spain" and SIN is "Singapore" |
| Cities.CityNameLondon | flight_agent.py:16-60 | all five London airports (LHR, LGW, STN, LTN, LCY) give "London, UK" |
| Cities.CityNameUnknown | flight_agent.py:58-60 | an unlisted code such as ZZZ is passed through as is |
| Calendar.YearOfCycle | flight_agent.py:166-167 | a day of a 400-year cycle splits into a year of the cycle (0 to 399) and a day of that year (0 to 365) that add back up to it |
| Calendar.MonthAndDay | flight_agent.py:166-167 | a day of a March-based year becomes a month (1 to 12) and a day (1 to 31) that map back to it |
| Calendar.CivilFromDays | flight_agent.py:166-167 | the calendar date of a day number always has a month from 1 to 12 and a day from 1 to 31 |
| Calendar.DaysFromCivilInCycle | flight_agent.py:166-167 | the day number of a date in a 400-year cycle is the cycle's start plus the days before its year and month plus its day |
| Calendar.CivilRoundTrip | flight_agent.py:166-167 | converting a day number to its calendar date and back gives the same day number |
| Calendar.YearOfCycleLastDay | flight_agent.py:166-167 | a 366th day occurs only in a year whose successor is a leap year of the Gregorian rule |
| Calendar.LeapInCycle | flight_agent.py:166-167 | the leap-year rule depends only on the year's position within its 400-year cycle |
| Calendar.MonthAndDayInMonth | flight_agent.py:166-167 | the computed day never exceeds the length of its month, and 29 February occurs only on the last day of a cycle year |
| Calendar.CivilFromDaysValid | flight_agent.py:166-167 | every day number whose year is between 1 and 9999 gives a valid calendar date |
| Calendar.YearsApart | flight_agent.py:166-167 | a later year of a 400-year cycle starts at least a whole year, leap day included, after an earlier one |
| Calendar.YearOfCycleUnique | flight_agent.py:166-167 | a day of a cycle has only one split into a year of the cycle and a day of that year |
| Calendar.MonthAndDayOf | flight_agent.py:166-167 | day d of month m falls on a day of the March-based year that splits back into m and d, and only 29 February is day 365 |
| Calendar.DayOfCycleBound | flight_agent.py:166-167 | a day of any year of the cycle, the last day of its last year included, lies within the cycle |
| Calendar.CivilFromDaysInCycle | flight_agent.py:166-167 | the calendar date of a day number given as a cycle and a day of that cycle comes from the split of that day |
| Calendar.DaysCivilRoundTrip | flight_agent.py:556-561 | converting a date that exists to its day number and back gives the same year, month and day |
| Calendar.ZeroPad | flight_agent.py:166-167 | the padded text is all digits, at least as wide as requested, and exactly that wide when the number fits |
| Calendar.ZeroPadValue | flight_agent.py:166-167 | zero padding keeps a number's value |
| Calendar.IsoDateShape | flight_agent.py:166-167 | the written date is ten characters: four digits, a dash, two digits, a dash, two digits |
| Calendar.IsoDateRoundTrip | flight_agent.py:561 | parsing the written text of a date in years 1 to 9999 gives back the same date, so a computed return date re-parses to itself |
| Calendar.MonthField | flight_agent.py:123-124 | a parsed month lies in 1 to 12, and the parse moves past the field |
| Calendar.DayField | flight_agent.py:123-124 | a parsed day lies in 1 to 31, and the parse moves past the field |
| Calendar.ParseDate | flight_agent.py:556-557 | text that parses is 8 to 10 characters long with a dash after its first four |
| Calendar.ParseDateMeaning | flight_agent.py:556-557 | text that parses starts with four digits and a dash, then a month field and a day field that end the text; those fields form a date that exists, and the day number returned is exactly that date |
| Calendar.ParseCivilText | flight_agent.py:556-557 | the zero-padded text of every valid date parses to that date |
| Calendar.ParseDateAccepts | flight_agent.py:556-557 | "2024-02-29" parses, and so does the unpadded "2024-1-5" |
| Calendar.ParseDateRejects | flight_agent.py:556-557 | 29 February of a common year, month 13 and year 0 are rejected |
| Calendar.ParseDateRejectsText | flight_agent.py:556-557 | trailing text after the day is rejected, and so is the empty string |
| Text.Strip | flight_agent.py:327 | the result is the input without its leading and trailing whitespace, and it has no whitespace at either end |
| Text.StripIdempotent | flight_agent.py:336 | stripping a second time changes nothing |
| Text.SplitFirst | flight_agent.py:332-334 | the first piece of a split is the text before the first separator |
| Text.SplitSecond | flight_agent.py:332-334 | when the separator occurs, the split has a second piece, and it is the text between its first two occurrences |
| Text.BeforeIdempotent | flight_agent.py:332-334 | cutting at the first separator a second time changes nothing, so `split(p)[0]` of a piece before a separator is that piece |
| Text.LowerCases | flight_agent.py:141 | lower-casing leaves no capital letter A to Z; each capital becomes its lower-case letter and every other character is unchanged |
| Text.LowerIdempotent | flight_agent.py:141 | lower-casing twice is the same as lower-casing once |
| Text.IntToStringRoundTrip | flight_agent.py:147 | the decimal text of an integer reads back as that integer |
| Flights.FlightsLink.Url | flight_agent.py:199 | the booking link starts with the Google Flights search prefix and ends with the ISO date of the search |
| Flights.QueryAt | flight_agent.py:165-169 | search i departs i days after the start and returns i days after the return date, and it has a return date exactly when the trip does |
| Flights.TopOffers | flight_agent.py:171-172 | the offers kept are a prefix of the reply's best flights, at most three; a failed search or a reply without best flights gives none |
| Flights.OffsetRecords | flight_agent.py:171-203 | one record per kept offer, each carrying the search's dates and the route's booking link |
| Flights.NormalizeOffer | flight_agent.py:173-201 | a record carries the search's dates, the offer's price and total duration, the route's booking link for the outbound date, and the first leg's airline when it has one |
| Flights.SweepQueries | flight_agent.py:165-169 | there are as many searches as days; search i keeps the route, departs i days after the start, and returns i days after the return date, with no return date when the trip has none |
| Flights.AnalyzeFlexibleDates | flight_agent.py:157-205 | the loop returns the sweep's records and issues the sweep's searches, one per day, in order |
| Flights.SweepStep | flight_agent.py:165-203 | one more day appends exactly that day's records |
| Flights.Sweep | flight_agent.py:165-203 | the sweep over n days yields at most three records per day, and none for a day count of zero or less |
| Flights.SweepFull | flight_agent.py:171-172 | when every day's reply has at least three best flights, there are exactly three records per day |
| Flights.SweepAllFailed | flight_agent.py:171 | when no reply has best flights, there are no records |
| Flights.SweepPrefix | flight_agent.py:165-203 | a shorter sweep's records are a prefix of a longer one's |
| Flights.SweepRecordDates | flight_agent.py:166-167 | every record lies in the window: its outbound and return dates are the same offset from the start and return dates, below the number of days |
| Flights.SweepOrderedByDate | flight_agent.py:165-203 | records come in order of outbound date |
| Flights.OffsetRecordsInRankOrder | flight_agent.py:172-203 | the k-th record of a day is built from the k-th best flight of that day's reply |
| Flights.NormalizeDefaults | flight_agent.py:173-200 | an offer with no second leg has empty return fields; one with no legs gets "Unknown" as airline and the route's airports |
| Flights.BookingLinkIgnoresOffer | flight_agent.py:199 | the booking link depends only on the route and date, never on the offer |
| ValueRanking.Select | flight_agent.py:518 | a filter keeps only accepted records and never adds any |
| ValueRanking.SelectPermutation | flight_agent.py:514 | filtering two orderings of the same records keeps the same records |
| ValueRanking.InsertionPoint | flight_agent.py:514 | a record goes after every strictly cheaper one and before the first that is not cheaper |
| ValueRanking.InsertSorted | flight_agent.py:514 | inserting into a price-sorted list keeps it sorted |
| ValueRanking.InsertMultiset | flight_agent.py:514 | insertion adds exactly the one record |
| ValueRanking.InsertStable | flight_agent.py:514 | insertion keeps the relative order of records of equal price |
| ValueRanking.SortByPrice | flight_agent.py:514 | the sorted list has as many records as the input |
| ValueRanking.SortByPriceSorted | flight_agent.py:514 | the sorted list is in ascending price order |
| ValueRanking.SortByPricePermutation | flight_agent.py:514 | the sorted list is a permutation of the input |
| ValueRanking.SortByPriceStable | flight_agent.py:514 | for every price, the records of that price keep their input order, as Python's stable sort does |
| ValueRanking.PricedCount | flight_agent.py:515 | the count of prices toward the mean is at most the number of records |
| ValueRanking.PricesList | flight_agent.py:515-516 | the count is the number of records with a non-zero price, and the sum is the sum of exactly those prices |
| ValueRanking.QualifiesAverage | flight_agent.py:516-518 | a flight qualifies exactly when its price is at most 1.2 times the mean non-zero price, the mean being 0 when no price is non-zero |
| ValueRanking.SelectMembers | flight_agent.py:518 | a record is in the filtered list exactly when it is in the input and the filter accepts it |
| ValueRanking.QualifyingMembers | flight_agent.py:518 | every flight kept by the 120% filter is from the input and qualifies, and every qualifying flight of the input is kept |
| ValueRanking.FindBestValueFlights | flight_agent.py:509-519 | the ranking fails exactly when a non-empty list has a record without a price; otherwise it returns at most eight flights |
| ValueRanking.QualifiesDownward | flight_agent.py:518 | a flight cheaper than a qualifying one also qualifies |
| ValueRanking.QualifyingPrefix | flight_agent.py:518 | on a sorted list the flights that qualify form a prefix |
| ValueRanking.RankedPrefix | flight_agent.py:514-519 | the result is a prefix of the qualifying flights and of the sorted list |
| ValueRanking.BestValueSound | flight_agent.py:514-519 | the result is sorted by price, drawn from the input, and every flight in it is at most 120% of the mean non-zero price |
| ValueRanking.BestValueSorted | flight_agent.py:514-519 | the result is sorted by price |
| ValueRanking.BestValueQualifies | flight_agent.py:515-518 | every flight in the result is at most 120% of the mean non-zero price |
| ValueRanking.BestValueCheapest | flight_agent.py:514-519 | the result is the cheapest part of the sorted list, with length min(8, number of qualifying flights) |
| ValueRanking.BestValueComplete | flight_agent.py:518-519 | when fewer than eight are returned, every qualifying flight is among them |
| ValueRanking.SumAtLeast | flight_agent.py:515-516 | the sum of non-zero prices is at least the lowest price times their count |
| ValueRanking.NonNegativePrices | flight_agent.py:515-516 | with no negative prices the sum is non-negative, and a zero count means every price is zero |
| ValueRanking.CheapestQualifies | flight_agent.py:514-518 | with no negative prices, the cheapest flight always qualifies |
| ValueRanking.BestValueNonEmpty | flight_agent.py:509-519 | with no negative prices, a non-empty list never ranks to nothing |
| ValueRanking.BestValueUnpriced | flight_agent.py:514-518 | one record without a price makes the ranking raise |
| ValueRanking.ExampleSort | flight_agent.py:514 | prices 100, 1000, 100 sort to the two 100s in input order, then 1000 |
| ValueRanking.ExampleSums | flight_agent.py:515-516 | prices 100, 1000, 100 sum to 1200 over three prices |
| ValueRanking.ExampleQualifying | flight_agent.py:518 | with mean 400 the threshold is 480, which keeps the two 100s and drops 1000 |
| ValueRanking.BestValueExample | flight_agent.py:509-519 | the whole ranking of prices 100, 1000, 100 returns the two 100 flights in input order |
| Defaults.RestaurantWellFormed | flight_agent.py:361-451 | a restaurant built from a positive price and a rating between 4 and 5 has all its fields |
| Defaults.BreakfastShape | flight_agent.py:364-392 | three breakfast places, each well formed and naming the city |
| Defaults.LunchShape | flight_agent.py:393-421 | three lunch places, each well formed and naming the city |
| Defaults.DinnerShape | flight_agent.py:422-450 | three dinner places, each well formed and naming the city |
| Defaults.DefaultRestaurantsShape | flight_agent.py:361-451 | the default restaurants have exactly the keys breakfast, lunch and dinner, each a list of three well-formed places |
| Defaults.DefaultDays | flight_agent.py:453-486 | one entry per day, and none when the day count is zero or negative |
| Defaults.BuildDefaultItinerary | flight_agent.py:453-486 | the loop builds exactly the default days |
| Defaults.DefaultDaysNumbered | flight_agent.py:456-485 | entry k is day k+1, and its daily total equals the sum of its three slot costs |
| Defaults.FallbackBudgetAddsUp | flight_agent.py:500-506 | the fallback total estimate is the sum of activities, food, transport and accommodation |
| Defaults.FallbackShape | flight_agent.py:488-507 | the fallback has exactly its four sections; it names the city and carries the default days and the default restaurants |
| Lodging.NormalizeHotel | flight_agent.py:578-589 | a hotel option has at most 200 description characters, three images and five amenities; its fields are stated in full by `Lodging.HotelOptionsFaithful` |
| Lodging.HotelOptions | flight_agent.py:576-577 | there are at most ten hotel options |
| Lodging.CollectHotelOptions | flight_agent.py:574-589 | the loop builds exactly the hotel options of the reply |
| Lodging.HotelOptionsFaithful | flight_agent.py:578-589 | option k comes from property k: it keeps the name, the link, the lowest nightly and total rates, the rating and the review count, each defaulting to "N/A", "#" or 0 when missing; its description, images and amenities are the first 200 characters, three images and five amenities of the property's (empty when missing) |
| Lodging.HotelOptionsCount | flight_agent.py:576-577 | the number of options is the number of properties capped at ten; a failed search gives none |
| Lodging.SearchAirbnb | flight_agent.py:116-155 | the web query is "airbnb" and the city name, and the listings are those of the reply for a stay of the given number of nights |
| Lodging.ListingsSound | flight_agent.py:139-149 | every listing comes from a result whose link mentions Airbnb, keeps its link, and prices the stay at 75 a night |
| Lodging.ListingsComplete | flight_agent.py:140-141 | every examined result whose link mentions Airbnb gives a listing |
| Lodging.ListingsAppend | flight_agent.py:139-149 | the listings of two runs of results are the listings of the first followed by those of the second |
| Lodging.ListingsOrdered | flight_agent.py:139-149 | of two results whose links mention Airbnb, the earlier one's listing comes first |
| Lodging.AirbnbListingsBound | flight_agent.py:139-155 | at most eight listings; none when the search raised or had no organic results; results after the eighth are ignored |
| Lodging.AirbnbLinkIgnoresCase | flight_agent.py:141 | a link with "AIRBNB" in capitals passes, and a result without a link fails even if its title says airbnb |
| Lodging.AirbnbOptions | flight_agent.py:594-603 | one option per listing |
| Lodging.AirbnbOptionsPriced | flight_agent.py:147 | every Airbnb option's total price reads as 75 times the nights |
| Lodging.CollectAirbnbOptions | flight_agent.py:594-603 | the loop builds one option per listing, in order, each copying its listing |
| Itinerary.JsonFenceHasFence | flight_agent.py:331-333 | text with a JSON fence also has a plain fence, so the second branch only sees plain fences |
| Itinerary.StripKeepsFences | flight_agent.py:327-331 | stripping neither adds nor removes a fence |
| Itinerary.CleanUnfenced | flight_agent.py:331-336 | a reply without fences is only stripped |
| Itinerary.CleanRemovesFences | flight_agent.py:331-336 | after cleaning a fenced reply, no fence remains |
| Itinerary.CleanJsonBlock | flight_agent.py:331-332 | a JSON code block whose fences are not interleaved is cleaned to its stripped contents |
| Itinerary.CleanJsonSplit | flight_agent.py:327-336 | a reply with a JSON fence is cleaned to `split("```json")[1].split("```")[0]` of the stripped reply, stripped |
| Itinerary.CleanPlainBlock | flight_agent.py:327-336 | a reply with a plain fence and no JSON fence is cleaned to `split("```")[1].split("```")[0]` of the stripped reply, stripped, which is the text between its first two fences |
| Itinerary.Repair | flight_agent.py:342-350 | a repaired document is always a JSON object |
| Itinerary.RepairFails | flight_agent.py:342-350 | repair raises exactly when the document is not an object, its daily itinerary has no length, its restaurants are not an object, or its breakfast list has no length |
| Itinerary.FillKeeps | flight_agent.py:342-348 | filling adds only the restaurants and daily itinerary keys, keeps every other value, and keeps a non-empty daily itinerary |
| Itinerary.RepairKeeps | flight_agent.py:342-348 | a repaired document keeps every key and value of the original except an empty daily itinerary, and adds only restaurants and daily itinerary |
| Itinerary.RepairDefaults | flight_agent.py:342-348 | missing restaurants become the defaults, and a missing or empty daily itinerary becomes the default days |
| Itinerary.RepairUsable | flight_agent.py:342-350 | a repaired document has restaurants as an object and a daily itinerary with a length, empty only when the trip has no days |
| Itinerary.FallbackUsable | flight_agent.py:488-507 | the fallback itinerary has the same usable shape |
| Itinerary.RepairKeepsComplete | flight_agent.py:342-350 | a complete document is returned unchanged |
| Itinerary.RepairDocument | flight_agent.py:342-350 | the repair steps compute the repair function |
| Itinerary.BuildHotelDigest | flight_agent.py:214-219 | the loop builds exactly the hotel digest |
| Itinerary.HotelLinesAppend | flight_agent.py:218-219 | the lines of two lists of hotels are the lines of each, concatenated |
| Itinerary.DigestIgnoresRest | flight_agent.py:216 | hotels after the third never reach the prompt |
| Itinerary.LineInLines | flight_agent.py:218-219 | each hotel's line appears in the lines of its list |
| Itinerary.DigestListsFirstThree | flight_agent.py:214-219 | each of the first three hotels has its line in the digest |
| Itinerary.StructuredItineraryUsable | flight_agent.py:320-359 | the itinerary returned always has the usable shape, whatever the AI replies |
| Itinerary.StructuredItineraryFallback | flight_agent.py:320-359 | the fallback is returned when the call fails, the reply does not parse, or repair raises; otherwise the repaired document is returned |
| Itinerary.BuildFallbackItinerary | flight_agent.py:488-507 | builds exactly the fallback itinerary |
| Itinerary.ItineraryFromReply | flight_agent.py:320-359 | the try block with its two handlers computes the structured itinerary |
| Itinerary.CreateStructuredItinerary | flight_agent.py:207-359 | the prompt is built from the city, keywords, budget, days and hotel digest, and the itinerary comes from the AI's reply to that prompt |
| Coordinator.DateBounds | flight_agent.py:556-561 | the range of dates is 0001-01-01 to 9999-12-31 |
| Coordinator.Get | flight_agent.py:534-540 | `data.get(key, default)` gives the default for a missing key, the value for a given one, and null for an explicit null |
| Coordinator.ResolveGivenDates | flight_agent.py:555-558 | with a return date, the duration is the difference of the two parsed dates, and the step fails exactly when either date does not parse |
| Coordinator.ResolveDefaultDates | flight_agent.py:559-561 | without a return date, the duration is duration_days (5 when the key is missing) and the return date is the outbound date moved by it, written as text; the step fails exactly when the outbound date does not parse, duration_days is null, or the sum leaves the range |
| Coordinator.FindStay | flight_agent.py:570-604 | the accommodation steps compute the stay function, reading accommodation_type with its default "hotel" and a null as no type |
| Coordinator.AccommodateTrip | flight_agent.py:570-645 | the steps after ranking compute the accommodation outcome, which is a server error after the searches when budget or keywords is null |
| Coordinator.CreateItinerary | flight_agent.py:531-645 | the endpoint's steps compute its response and the calls it makes |
| Coordinator.HandleValidates | flight_agent.py:551-552 | a 400 response happens exactly when destination, origin or outbound date is missing or empty, and then no outside call is made |
| Coordinator.HandleBadDate | flight_agent.py:555-561 | an outbound date that does not parse gives a server error before any call |
| Coordinator.HandleNullDuration | flight_agent.py:559-561 | a null duration_days without a return date gives a server error before any call |
| Coordinator.HandleNullKind | flight_agent.py:540-645 | a successful request with a null accommodation type makes no hotel or web search, sends no hotel digest, lists no options, and echoes the type as null |
| Coordinator.AccommodateFails | flight_agent.py:606-625 | after ranking, the response is either a server error or a success whose itinerary has the usable shape; a null budget or null keywords gives a server error with no AI call |
| Coordinator.StayMatchesKind | flight_agent.py:540-604 | the hotel search happens exactly for hotel or mixed, with the dates as given; the web search happens exactly for airbnb or mixed; a missing type means hotels only and a null type means no search; options come only from searches made; there are at most ten hotel options |
| Coordinator.StayAirbnbPrices | flight_agent.py:592-603 | every Airbnb option prices the trip's nights at 75 each |
| Coordinator.FinishOutcome | flight_agent.py:606-645 | the calls are seven flight searches, the stay's searches and one prompt whose budget is the total minus the recommended flight; success happens exactly when the meal lists have lengths; a plan names the city, echoes the keywords and the accommodation type as read, and the remaining budget plus the flight cost equals the total budget |
| Coordinator.HandleOk | flight_agent.py:531-645 | a successful response passed validation, had a budget and keywords that are not null, resolved its dates within range, and ranked its flights |
| Coordinator.HandleFlights | flight_agent.py:566-567 | a successful response's flight options are the ranking of the sweep: at most eight, sorted, drawn from the sweep, and none cheaper than the recommended cost |
| Coordinator.RecommendedFlights | flight_agent.py:607 | the recommended cost is the first ranked flight's price, which is no more than any ranked flight's price |

## Left out

- Floating point: prices, the mean and the 1.2 factor use exact integer and rational arithmetic. `ValueRanking.Qualifies` compares `5 * price * count <= 6 * sum`. A tie that a float rounding would break either way is decided exactly.
- Coordinator.Handle: request fields are typed values, each missing, null or given. Other JSON types are not modelled. In the source some of them raise `TypeError`, such as a string `budget`. Others pass silently: a non-string `accommodation_type` simply matches no kind, and a string of `keywords` is joined character by character into the prompt. A request body that is not a JSON object is not modelled either.
- Output: the console output, the prompt's wording, the HTTP status plumbing and `jsonify` are not modelled. The prompt is modelled as the inputs it is built from.
- The `/` route is not modelled, and neither is reading the port from the environment.
- The hotel search client and the flight search client are not modelled: they are parameters. The fact that search_airbnb uses the `serpapi_key` is not modelled.
- Calendar.ParseDate: `\d` in Python's `strptime` also matches non-ASCII Unicode digits, which the model rejects.
- Text.Lower: only ASCII letters are lower-cased, whereas Python's `lower()` covers all of Unicode. The filter looks for the ASCII word "airbnb", so the only results treated differently are links whose letters fold into "airbnb" from outside ASCII.
- Lodging.SearchAirbnb: takes the check-in and check-out as day numbers, not as the texts it re-parses. This is faithful here because `create_itinerary` has parsed or written both texts already; for years 1 to 9999 `Calendar.IsoDateRoundTrip` shows a written date re-parses to itself.
- Calendar.IsoDate: years below 1000 are written zero-padded to four digits. Whether `strftime("%Y")` pads them depends on the C library.
- Coordinator.Handle: when one of the seven sweep dates passes 9999-12-31, the source raises `OverflowError` partway through the sweep, after the searches for earlier offsets. The model answers with a server error and records no calls for that request.
- Flights.FlightRecord: the booking link is kept as its parts (route and date). `FlightsLink.Url` renders the text.
- The code keeps at most the first three best flights of each reply, so a reply with fewer gives fewer (`Flights.SweepFull`, `Flights.Sweep`).
- There is no check that the check-out comes after the check-in. A negative stay gives a negative total price (`Lodging.ToListing`).
- Itinerary.CleanJsonBlock: stated only where the fences are not interleaved. When a plain fence partly overlaps the "```json" fence, `split("```")` splits inside it. `CleanResponse` models that case exactly, but no separate lemma describes it.
- Replies from outside services are typed, and a JSON `null` nested in a reply is read as a missing key. The source differs wherever `.get(key, default)` meets an explicit `null`, because `.get` returns `None` there and not the default. Three cases change the outcome:
  - `best_flights: null` in a flight reply: slicing `None` raises `TypeError`. The model reads it as no best flights.
  - `rate_per_night: null` (or `total_rate`, `description`, `images`, `amenities` set to `null`) on a hotel property: `create_itinerary` raises outside any `try`, and the response is a 500. The model gives that hotel "N/A" or an empty value and succeeds.
  - `link: null` on an organic result: `.lower()` raises inside the `try` of `search_airbnb`, so the whole search returns no listings. The model skips only that result.
  A `null` name, rating or review count is echoed as `null` by the source, whereas the model gives the default.
