/**
 * The canned content the itinerary falls back on (`_get_default_restaurants`,
 * `_get_default_itinerary`, `_get_fallback_itinerary`).
 */
module Defaults {
  import opened JsonValues
  import Text

  /** The meals the restaurant lists are keyed by. */
  const Meals: seq<string> := ["breakfast", "lunch", "dinner"]

  /** The keys every restaurant entry carries. */
  const RestaurantKeys: set<string> :=
    {"name", "cuisine", "price_per_person", "rating", "description", "neighborhood", "signature_dish"}

  /** One restaurant entry. */
  function Restaurant(name: string, cuisine: string, price: int, rating: real,
                      description: string, neighborhood: string, dish: string): Json {
    JObj(map[
      "name" := JStr(name),
      "cuisine" := JStr(cuisine),
      "price_per_person" := Int(price),
      "rating" := JNum(rating),
      "description" := JStr(description),
      "neighborhood" := JStr(neighborhood),
      "signature_dish" := JStr(dish)])
  }

  /** The breakfast places of the defaults. */
  function DefaultBreakfasts(city: string): seq<Json> {
    [Restaurant(city + " Breakfast Café", "Local", 12, 4.5, "Popular local breakfast spot", "City Center", "Traditional breakfast"),
     Restaurant("Morning Bistro", "Café", 10, 4.3, "Cozy breakfast place", "Old Town", "Fresh pastries"),
     Restaurant("Early Bird Café", "International", 14, 4.4, "Great morning coffee and food", "Downtown", "Avocado toast")]
  }

  /** The lunch places of the defaults. */
  function DefaultLunches(city: string): seq<Json> {
    [Restaurant(city + " Lunch Spot", "Local", 18, 4.6, "Great lunch location", "City Center", "Local specialties"),
     Restaurant("Lunch Bistro", "International", 20, 4.4, "Popular lunch venue", "Downtown", "Daily specials"),
     Restaurant("Midday Kitchen", "Mediterranean", 22, 4.5, "Fresh lunch options", "Harbor", "Grilled fish")]
  }

  /** The dinner places of the defaults. */
  function DefaultDinners(city: string): seq<Json> {
    [Restaurant(city + " Fine Dining", "Fine Dining", 45, 4.8, "Upscale dinner experience", "City Center", "Chef's tasting menu"),
     Restaurant("Evening Restaurant", "Local", 35, 4.7, "Traditional dinner spot", "Old Town", "Regional dishes"),
     Restaurant("Night Table", "Contemporary", 40, 4.6, "Modern cuisine", "Arts District", "Seasonal menu")]
  }

  /** `_get_default_restaurants`: three places per meal, the first of each named after the city. */
  function DefaultRestaurants(city: string): Json {
    JObj(map["breakfast" := JArr(DefaultBreakfasts(city)), "lunch" := JArr(DefaultLunches(city)),
             "dinner" := JArr(DefaultDinners(city))])
  }

  /** A restaurant entry as the prompt asks for it: every key, a positive price, a rating from 4.0 to 5.0. */
  predicate WellFormedRestaurant(r: Json) {
    && r.JObj? && r.fields.Keys == RestaurantKeys
    && r.fields["price_per_person"].JNum? && r.fields["price_per_person"].n > 0.0
    && r.fields["rating"].JNum? && 4.0 <= r.fields["rating"].n <= 5.0
    && r.fields["name"].JStr?
  }

  /** An entry built with a positive price and a rating from 4.0 to 5.0 is well formed. */
  lemma RestaurantWellFormed(name: string, cuisine: string, price: int, rating: real,
                             description: string, neighborhood: string, dish: string)
    requires price > 0 && 4.0 <= rating <= 5.0
    ensures WellFormedRestaurant(Restaurant(name, cuisine, price, rating, description, neighborhood, dish))
  {
    var r := Restaurant(name, cuisine, price, rating, description, neighborhood, dish);
    assert r.fields.Keys == RestaurantKeys;
  }

  /** Three well-formed places, the first named after the city. */
  predicate MealShape(city: string, places: seq<Json>) {
    && |places| == 3
    && (forall k | 0 <= k < 3 :: WellFormedRestaurant(places[k]))
    && var first := places[0].fields["name"].s;
       |city| <= |first| && first[..|city|] == city
  }

  lemma BreakfastShape(city: string)
    ensures MealShape(city, DefaultBreakfasts(city))
  {
    RestaurantWellFormed(city + " Breakfast Café", "Local", 12, 4.5, "Popular local breakfast spot", "City Center", "Traditional breakfast");
    RestaurantWellFormed("Morning Bistro", "Café", 10, 4.3, "Cozy breakfast place", "Old Town", "Fresh pastries");
    RestaurantWellFormed("Early Bird Café", "International", 14, 4.4, "Great morning coffee and food", "Downtown", "Avocado toast");
    assert (city + " Breakfast Café")[..|city|] == city;
  }

  lemma LunchShape(city: string)
    ensures MealShape(city, DefaultLunches(city))
  {
    RestaurantWellFormed(city + " Lunch Spot", "Local", 18, 4.6, "Great lunch location", "City Center", "Local specialties");
    RestaurantWellFormed("Lunch Bistro", "International", 20, 4.4, "Popular lunch venue", "Downtown", "Daily specials");
    RestaurantWellFormed("Midday Kitchen", "Mediterranean", 22, 4.5, "Fresh lunch options", "Harbor", "Grilled fish");
    assert (city + " Lunch Spot")[..|city|] == city;
  }

  lemma DinnerShape(city: string)
    ensures MealShape(city, DefaultDinners(city))
  {
    RestaurantWellFormed(city + " Fine Dining", "Fine Dining", 45, 4.8, "Upscale dinner experience", "City Center", "Chef's tasting menu");
    RestaurantWellFormed("Evening Restaurant", "Local", 35, 4.7, "Traditional dinner spot", "Old Town", "Regional dishes");
    RestaurantWellFormed("Night Table", "Contemporary", 40, 4.6, "Modern cuisine", "Arts District", "Seasonal menu");
    assert (city + " Fine Dining")[..|city|] == city;
  }

  /**
   * The default restaurants have exactly the three meal keys, three
   * well-formed entries each, and the first entry of each meal starts
   * with the city's name.
   */
  lemma DefaultRestaurantsShape(city: string)
    ensures var r := DefaultRestaurants(city);
            && r.JObj? && r.fields.Keys == set m | m in Meals
            && forall m | m in Meals :: r.fields[m].JArr? && MealShape(city, r.fields[m].items)
  {
    var r := DefaultRestaurants(city);
    assert r.fields.Keys == {"breakfast", "lunch", "dinner"};
    BreakfastShape(city);
    LunchShape(city);
    DinnerShape(city);
  }

  /** One activity slot of a default day. */
  function Slot(time: string, activity: string, description: string, cost: int, duration: string, location: string): Json {
    JObj(map[
      "time" := JStr(time),
      "activity" := JStr(activity),
      "description" := JStr(description),
      "cost" := Int(cost),
      "duration" := JStr(duration),
      "location" := JStr(location)])
  }

  /** The default entry for day `day` (counted from 1). */
  function DefaultDay(city: string, day: int): Json {
    JObj(map[
      "day" := Int(day),
      "theme" := JStr("Day " + Text.IntToString(day) + " Exploration"),
      "morning" := Slot("9:00 AM", "Morning Activity", "Explore " + city + " in the morning", 15, "2-3 hours", "City Center"),
      "afternoon" := Slot("2:00 PM", "Afternoon Activity", "Continue exploration", 25, "3-4 hours", "Main attractions"),
      "evening" := Slot("7:00 PM", "Evening Activity", "Evening entertainment", 30, "2-3 hours", "Entertainment district"),
      "daily_total" := Int(70)])
  }

  /** The default daily itinerary: days `1..days`, none when `days` is not positive. */
  function DefaultDays(city: string, days: int): (itinerary: seq<Json>)
    ensures |itinerary| == if days < 0 then 0 else days
  {
    seq(if days < 0 then 0 else days, i => DefaultDay(city, i + 1))
  }

  /** `_get_default_itinerary`: appends one entry per day number in `range(1, days + 1)`. */
  method BuildDefaultItinerary(city: string, days: int) returns (itinerary: seq<Json>)
    ensures itinerary == DefaultDays(city, days)
  {
    itinerary := [];
    var day := 1;
    while day < days + 1
      invariant 1 <= day <= (if days < 0 then 1 else days + 1)
      invariant itinerary == DefaultDays(city, day - 1)
    {
      assert DefaultDays(city, day) == DefaultDays(city, day - 1) + [DefaultDay(city, day)];
      itinerary := itinerary + [DefaultDay(city, day)];
      day := day + 1;
    }
    if days < 0 {
      assert DefaultDays(city, days) == [] == DefaultDays(city, day - 1);
    }
  }

  /** The cost of the three slots of a day. */
  function SlotCosts(entry: Json): real
    requires entry.JObj? && forall s | s in ["morning", "afternoon", "evening"] ::
               s in entry.fields && entry.fields[s].JObj? && "cost" in entry.fields[s].fields
                 && entry.fields[s].fields["cost"].JNum?
  {
    entry.fields["morning"].fields["cost"].n + entry.fields["afternoon"].fields["cost"].n
      + entry.fields["evening"].fields["cost"].n
  }

  /**
   * Day `k` of the default itinerary is numbered `k + 1`, and its
   * `daily_total` is the sum of its three slot costs.
   */
  lemma DefaultDaysNumbered(city: string, days: int, k: int)
    requires 0 <= k < days
    ensures var e := DefaultDays(city, days)[k];
            && e.JObj? && e.fields["day"] == Int(k + 1)
            && e.fields["daily_total"].JNum? && e.fields["daily_total"].n == SlotCosts(e)
  {
  }

  /** `_get_fallback_itinerary`: an overview, the default days and restaurants, and a fixed budget. */
  function FallbackItinerary(city: string, days: int): Json {
    JObj(map[
      "overview" := JObj(map[
        "destination" := JStr(city),
        "best_time_to_visit" := JStr("Year-round"),
        "getting_around" := JStr("Public transport and walking"),
        "money_saving_tips" := JArr([JStr("Use public transport"), JStr("Book attractions online"), JStr("Eat at local spots")]),
        "local_customs" := JStr("Respect local customs and traditions")]),
      "daily_itinerary" := JArr(DefaultDays(city, days)),
      "restaurants" := DefaultRestaurants(city),
      "budget_summary" := JObj(map[
        "activities" := Int(200),
        "food" := Int(300),
        "transport" := Int(50),
        "accommodation_estimate" := Int(400),
        "total_estimate" := Int(950)])])
  }

  /** The budget lines of the fallback add up to its `total_estimate`. */
  lemma FallbackBudgetAddsUp(city: string, days: int)
    ensures var b := FallbackItinerary(city, days).fields["budget_summary"].fields;
            b["total_estimate"].n
              == b["activities"].n + b["food"].n + b["transport"].n + b["accommodation_estimate"].n
  {
  }

  /**
   * The fallback names the city, has one default day per trip day and the
   * default restaurants, under the same keys a parsed itinerary has.
   */
  lemma FallbackShape(city: string, days: int)
    ensures var f := FallbackItinerary(city, days);
            && f.JObj? && f.fields.Keys == {"overview", "daily_itinerary", "restaurants", "budget_summary"}
            && f.fields["overview"].fields["destination"] == JStr(city)
            && f.fields["daily_itinerary"] == JArr(DefaultDays(city, days))
            && |f.fields["daily_itinerary"].items| == (if days < 0 then 0 else days)
            && f.fields["restaurants"] == DefaultRestaurants(city)
  {
    var f := FallbackItinerary(city, days);
    assert f.fields.Keys == {"overview", "daily_itinerary", "restaurants", "budget_summary"};
  }
}
