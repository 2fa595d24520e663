/**
 * The AI itinerary (`create_structured_itinerary`): the hotel digest that
 * goes into the prompt, the cleaning of the model's reply, and the repair
 * of the parsed document, with the fallback itinerary whenever a step
 * fails.
 */
module Itinerary {
  import opened Wrappers
  import opened JsonValues
  import Text
  import Cities
  import Defaults
  import Lodging

  /** The opening fence of a JSON code block. */
  const JsonFence := "```json"
  /** A plain code fence. */
  const Fence := "```"

  /**
   * The reply cleaning: strip; if it holds "```json", keep
   * `split("```json")[1].split("```")[0]`; else if it holds "```", keep
   * `split("```")[1].split("```")[0]`; strip the result. `Segment` is
   * `split(p)[1]` and `Before` is `split(p)[0]` (`Text.SplitSecond`,
   * `Text.SplitFirst`).
   */
  function CleanResponse(raw: string): string {
    var t := Text.Strip(raw);
    var inner :=
      if Text.Contains(t, JsonFence) then Text.Strip(Text.Before(Text.Segment(t, JsonFence), Fence))
      else if Text.Contains(t, Fence) then Text.Strip(Text.Before(Text.Segment(t, Fence), Fence))
      else t;
    Text.Strip(inner)
  }

  /** Every "```json" starts with "```". */
  lemma JsonFenceHasFence(s: string)
    requires Text.Contains(s, JsonFence)
    ensures Text.Contains(s, Fence)
  {
    var k := Text.IndexOf(s, JsonFence).value;
    assert s[k..k + 3] == s[k..k + 7][..3];
    Text.OccurrenceContains(s, Fence, k);
  }

  /** Stripping neither adds nor removes a fence. */
  lemma StripKeepsFences(s: string)
    ensures Text.Contains(Text.Strip(s), Fence) <==> Text.Contains(s, Fence)
    ensures Text.Contains(Text.Strip(s), JsonFence) <==> Text.Contains(s, JsonFence)
  {
    Text.StripKeepsOccurrences(s, Fence);
    Text.StripKeepsOccurrences(s, JsonFence);
  }

  /** A reply without fences is only stripped. */
  lemma CleanUnfenced(raw: string)
    requires !Text.Contains(raw, Fence)
    ensures CleanResponse(raw) == Text.Strip(raw)
  {
    var t := Text.Strip(raw);
    StripKeepsFences(raw);
    if Text.Contains(t, JsonFence) {
      JsonFenceHasFence(t);
    }
    Text.StripIdempotent(raw);
  }

  /** The cleaned text of a fenced reply has no fence left in it. */
  lemma CleanRemovesFences(raw: string)
    requires Text.Contains(raw, Fence)
    ensures !Text.Contains(CleanResponse(raw), Fence)
  {
    var t := Text.Strip(raw);
    StripKeepsFences(raw);
    var cut :=
      if Text.Contains(t, JsonFence) then Text.Before(Text.Segment(t, JsonFence), Fence)
      else Text.Before(Text.Segment(t, Fence), Fence);
    Text.BeforeExcludes(if Text.Contains(t, JsonFence) then Text.Segment(t, JsonFence) else Text.Segment(t, Fence), Fence);
    assert !Text.Contains(cut, Fence);
    StripKeepsFences(cut);
    StripKeepsFences(Text.Strip(cut));
  }

  /**
   * A reply with a JSON block gives the stripped text between the first
   * "```json" and the next "```", as long as that "```" is not the start
   * of a later "```json" that begins inside it.
   */
  lemma CleanJsonBlock(raw: string)
    requires Text.Contains(Text.Strip(raw), JsonFence)
    requires var s := Text.After(Text.Strip(raw), JsonFence);
             Text.IndexOf(s, JsonFence).Some? && Text.IndexOf(s, Fence).Some? ==>
               Text.IndexOf(s, Fence).value + 3 <= Text.IndexOf(s, JsonFence).value
               || Text.IndexOf(s, Fence).value == Text.IndexOf(s, JsonFence).value
    ensures CleanResponse(raw) == Text.Strip(Text.Before(Text.After(Text.Strip(raw), JsonFence), Fence))
  {
    var s := Text.After(Text.Strip(raw), JsonFence);
    Text.BeforeNested(s, JsonFence, Fence);
    Text.StripIdempotent(Text.Before(s, Fence));
  }

  /**
   * A reply with a plain fence and no JSON fence gives the stripped text
   * between its first two fences: `split("```")[1].split("```")[0]`, which
   * is the text up to the second fence (or to the end when there is none).
   */
  lemma CleanPlainBlock(raw: string)
    requires Text.Contains(Text.Strip(raw), Fence) && !Text.Contains(Text.Strip(raw), JsonFence)
    ensures var parts := Text.Split(Text.Strip(raw), Fence);
            |parts| >= 2 && CleanResponse(raw) == Text.Strip(Text.Split(parts[1], Fence)[0])
    ensures CleanResponse(raw) == Text.Strip(Text.Before(Text.After(Text.Strip(raw), Fence), Fence))
  {
    var t := Text.Strip(raw);
    Text.SplitSecond(t, Fence);
    Text.SplitFirst(Text.Segment(t, Fence), Fence);
    Text.BeforeIdempotent(Text.After(t, Fence), Fence);
    Text.StripIdempotent(Text.Segment(t, Fence));
  }

  /** A reply with a JSON fence gives `split("```json")[1].split("```")[0]`, stripped. */
  lemma CleanJsonSplit(raw: string)
    requires Text.Contains(Text.Strip(raw), JsonFence)
    ensures var parts := Text.Split(Text.Strip(raw), JsonFence);
            |parts| >= 2 && CleanResponse(raw) == Text.Strip(Text.Split(parts[1], Fence)[0])
  {
    var t := Text.Strip(raw);
    Text.SplitSecond(t, JsonFence);
    Text.SplitFirst(Text.Segment(t, JsonFence), Fence);
    Text.StripIdempotent(Text.Before(Text.Segment(t, JsonFence), Fence));
  }

  /** The `restaurants` step of the repair: add `restaurants` when the key is missing. */
  function FillRestaurants(fields: map<string, Json>, restaurants: Json): map<string, Json> {
    if "restaurants" in fields then fields else fields["restaurants" := restaurants]
  }

  /** The `daily_itinerary` step of the repair: replace a missing or empty list of days. */
  function FillDays(fields: map<string, Json>, daily: Json): map<string, Json>
    requires "daily_itinerary" in fields ==> Len(fields["daily_itinerary"]).Some?
  {
    if "daily_itinerary" !in fields || Len(fields["daily_itinerary"]) == Some(0)
    then fields["daily_itinerary" := daily]
    else fields
  }

  /** The two steps keep every other key and value, whatever the defaults are. */
  lemma FillKeeps(fields: map<string, Json>, restaurants: Json, daily: Json)
    requires "daily_itinerary" in fields ==> Len(fields["daily_itinerary"]).Some?
    ensures var f := FillDays(FillRestaurants(fields, restaurants), daily);
            && f.Keys == fields.Keys + {"restaurants", "daily_itinerary"}
            && (forall k | k in fields && k != "daily_itinerary" :: f[k] == fields[k])
            && ("daily_itinerary" in fields && NonEmpty(fields["daily_itinerary"]) ==>
                  f["daily_itinerary"] == fields["daily_itinerary"])
  {
  }

  /**
   * `itinerary_data` after the two repairs, or `None` where the source
   * raises and falls back: a parsed value that is not an object, a
   * `daily_itinerary` without a length, `restaurants` that is not an
   * object, or a `breakfast` list without a length (the log line reads it).
   * Missing restaurants get the defaults; a missing or empty daily
   * itinerary gets the default days.
   */
  function Repair(d: Json, city: string, days: int): (r: Option<Json>)
    ensures r.Some? ==> r.value.JObj?
  {
    if !d.JObj? then None
    else
      var withRestaurants := FillRestaurants(d.fields, Defaults.DefaultRestaurants(city));
      if "daily_itinerary" in withRestaurants && Len(withRestaurants["daily_itinerary"]).None? then None
      else
        var fields := FillDays(withRestaurants, JArr(Defaults.DefaultDays(city, days)));
        var restaurants := fields["restaurants"];
        if !restaurants.JObj? then None
        else if "breakfast" in restaurants.fields && Len(restaurants.fields["breakfast"]).None? then None
        else Some(JObj(fields))
  }

  /** A value has a length and is not empty. */
  predicate NonEmpty(j: Json) {
    Len(j).Some? && Len(j).value > 0
  }

  /** The cases in which the repair gives up, exactly. */
  lemma RepairFails(d: Json, city: string, days: int)
    ensures Repair(d, city, days).None? <==>
              || !d.JObj?
              || ("daily_itinerary" in d.fields && Len(d.fields["daily_itinerary"]).None?)
              || ("restaurants" in d.fields && !d.fields["restaurants"].JObj?)
              || ("restaurants" in d.fields && d.fields["restaurants"].JObj?
                  && "breakfast" in d.fields["restaurants"].fields
                  && Len(d.fields["restaurants"].fields["breakfast"]).None?)
  {
  }

  /**
   * A repaired document keeps every key of the reply, adds at most
   * `restaurants` and `daily_itinerary`, keeps every value except an empty
   * daily itinerary.
   */
  lemma RepairKeeps(d: Json, city: string, days: int)
    requires Repair(d, city, days).Some?
    ensures var r := Repair(d, city, days).value;
            && r.fields.Keys == d.fields.Keys + {"restaurants", "daily_itinerary"}
            && (forall k | k in d.fields && k != "daily_itinerary" :: r.fields[k] == d.fields[k])
            && ("daily_itinerary" in d.fields && NonEmpty(d.fields["daily_itinerary"]) ==>
                  r.fields["daily_itinerary"] == d.fields["daily_itinerary"])
  {
    FillKeeps(d.fields, Defaults.DefaultRestaurants(city), JArr(Defaults.DefaultDays(city, days)));
  }

  /** The keys a repair adds hold the default restaurants and the default days. */
  lemma RepairDefaults(d: Json, city: string, days: int)
    requires Repair(d, city, days).Some?
    ensures var r := Repair(d, city, days).value;
            && ("restaurants" !in d.fields ==> r.fields["restaurants"] == Defaults.DefaultRestaurants(city))
            && (!("daily_itinerary" in d.fields && NonEmpty(d.fields["daily_itinerary"])) ==>
                  r.fields["daily_itinerary"] == JArr(Defaults.DefaultDays(city, days)))
  {
  }

  /**
   * What the rest of the request relies on: an object whose `restaurants`
   * is an object, whose `breakfast` (if any) has a length, and whose
   * `daily_itinerary` has a length.
   */
  predicate Usable(j: Json) {
    && j.JObj? && "restaurants" in j.fields && "daily_itinerary" in j.fields
    && j.fields["restaurants"].JObj?
    && ("breakfast" in j.fields["restaurants"].fields ==> Len(j.fields["restaurants"].fields["breakfast"]).Some?)
    && Len(j.fields["daily_itinerary"]).Some?
  }

  /** A repaired document is usable, and its daily itinerary is empty only when the trip has no days. */
  lemma RepairUsable(d: Json, city: string, days: int)
    requires Repair(d, city, days).Some?
    ensures var r := Repair(d, city, days).value;
            Usable(r) && (Len(r.fields["daily_itinerary"]) == Some(0) ==> days <= 0)
  {
  }

  /** The fallback itinerary is usable. */
  lemma FallbackUsable(city: string, days: int)
    ensures Usable(Defaults.FallbackItinerary(city, days))
  {
  }

  /** A reply that already has everything comes back unchanged. */
  lemma RepairKeepsComplete(d: Json, city: string, days: int)
    requires d.JObj? && "restaurants" in d.fields && "daily_itinerary" in d.fields
    requires d.fields["restaurants"].JObj? && NonEmpty(d.fields["daily_itinerary"])
    requires "breakfast" in d.fields["restaurants"].fields ==> Len(d.fields["restaurants"].fields["breakfast"]).Some?
    ensures Repair(d, city, days) == Some(d)
  {
  }

  /** The header the hotel digest starts with. */
  const DigestHeader := "\n\nTop Hotels:\n"
  /** At most this many hotels go into the digest. */
  const DigestHotels := 3

  /** The digest line of one hotel: its name and lowest nightly rate. */
  function HotelLine(h: Lodging.HotelProperty): string {
    "- " + h.name.GetOr("N/A") + ": £" + Lodging.Lowest(h.ratePerNight) + "/night\n"
  }

  /** The digest lines of some hotels, in order. */
  function HotelLines(hs: seq<Lodging.HotelProperty>): string {
    if hs == [] then "" else HotelLines(hs[..|hs| - 1]) + HotelLine(hs[|hs| - 1])
  }

  /** `hotel_info`: empty unless the hotels were searched and the reply has a `properties` key. */
  function HotelDigest(hotels: Option<Lodging.HotelResponse>): string {
    if hotels.Some? && hotels.value.HotelReply? && hotels.value.properties.Some? then
      DigestHeader + HotelLines(Text.Take(hotels.value.properties.value, DigestHotels))
    else ""
  }

  /** The `hotel_info` loop. */
  method BuildHotelDigest(hotels: Option<Lodging.HotelResponse>) returns (info: string)
    ensures info == HotelDigest(hotels)
  {
    info := "";
    if hotels.Some? && hotels.value.HotelReply? && hotels.value.properties.Some? {
      var top := Text.Take(hotels.value.properties.value, DigestHotels);
      info := DigestHeader;
      var k := 0;
      while k < |top|
        invariant 0 <= k <= |top|
        invariant info == DigestHeader + HotelLines(top[..k])
      {
        assert top[..k + 1][..k] == top[..k];
        info := info + HotelLine(top[k]);
        k := k + 1;
      }
      assert top[..k] == top;
    }
  }

  /** The lines of a list of hotels are the lines of its parts, one after the other. */
  lemma {:induction false} HotelLinesAppend(a: seq<Lodging.HotelProperty>, b: seq<Lodging.HotelProperty>)
    ensures HotelLines(a + b) == HotelLines(a) + HotelLines(b)
    decreases |b|
  {
    if b != [] {
      assert (a + b)[..|a + b| - 1] == a + b[..|b| - 1];
      HotelLinesAppend(a, b[..|b| - 1]);
    } else {
      assert a + b == a;
    }
  }

  /** The hotels after the third do not change the digest. */
  lemma DigestIgnoresRest(props: seq<Lodging.HotelProperty>, extra: seq<Lodging.HotelProperty>)
    requires |props| == DigestHotels
    ensures HotelDigest(Some(Lodging.HotelReply(Some(props + extra)))) == HotelDigest(Some(Lodging.HotelReply(Some(props))))
  {
    assert Text.Take(props + extra, DigestHotels) == props;
    assert Text.Take(props, DigestHotels) == props;
  }

  /** The lines of a list are those before hotel `k`, its own line, and those after it. */
  lemma LinesSplitAt(hs: seq<Lodging.HotelProperty>, k: int)
    requires 0 <= k < |hs|
    ensures HotelLines(hs) == HotelLines(hs[..k]) + HotelLine(hs[k]) + HotelLines(hs[k + 1..])
  {
    var pre := hs[..k + 1];
    assert pre + hs[k + 1..] == hs;
    HotelLinesAppend(pre, hs[k + 1..]);
    assert pre[..|pre| - 1] == hs[..k] && pre[|pre| - 1] == hs[k];
    assert HotelLines(pre) == HotelLines(pre[..|pre| - 1]) + HotelLine(pre[|pre| - 1]);
  }

  /** The line of hotel `k` appears in the lines of the list. */
  lemma LineInLines(hs: seq<Lodging.HotelProperty>, k: int)
    requires 0 <= k < |hs|
    ensures Text.Contains(HotelLines(hs), HotelLine(hs[k]))
  {
    LinesSplitAt(hs, k);
    Text.InfixContains(HotelLines(hs[..k]), HotelLine(hs[k]), HotelLines(hs[k + 1..]));
  }

  /** The digest of a reply lists each of its first three hotels. */
  lemma DigestListsFirstThree(props: seq<Lodging.HotelProperty>, k: int)
    requires 0 <= k < |props| && k < DigestHotels
    ensures Text.Contains(HotelDigest(Some(Lodging.HotelReply(Some(props)))), HotelLine(props[k]))
  {
    var top := Text.Take(props, DigestHotels);
    assert top[k] == props[k];
    LineInLines(top, k);
    Text.InfixContains(DigestHeader, HotelLines(top), "");
    assert DigestHeader + HotelLines(top) + "" == DigestHeader + HotelLines(top);
    var d := DigestHeader + HotelLines(top);
    var i := Text.IndexOf(HotelLines(top), HotelLine(props[k])).value;
    assert Text.OccursAt(HotelLines(top), HotelLine(props[k]), i);
    Text.SliceContains(d, |DigestHeader|, |d|, HotelLine(props[k]));
  }

  /** What the prompt is built from; the wording around these is fixed. */
  datatype PromptInputs = PromptInputs(city: string, keywords: seq<string>, budget: int, days: int, hotelInfo: string)

  /** The prompt inputs of a request. */
  function PromptFor(destinationCode: string, keywords: seq<string>, budget: int, days: int,
                     hotels: Option<Lodging.HotelResponse>): PromptInputs {
    PromptInputs(Cities.CityName(destinationCode), keywords, budget, days, HotelDigest(hotels))
  }

  /**
   * The itinerary for the model's reply (`None`: the call raised), with
   * `parse` standing for `json.loads` (`None`: it raised).
   */
  function StructuredItinerary(city: string, days: int, reply: Option<string>, parse: string -> Option<Json>): Json {
    var fallback := Defaults.FallbackItinerary(city, days);
    match reply
    case None => fallback
    case Some(raw) =>
      match parse(CleanResponse(raw))
      case None => fallback
      case Some(d) => Repair(d, city, days).GetOr(fallback)
  }

  /** Whatever the model and the parser do, the itinerary is usable. */
  lemma StructuredItineraryUsable(city: string, days: int, reply: Option<string>, parse: string -> Option<Json>)
    ensures Usable(StructuredItinerary(city, days, reply, parse))
  {
    FallbackUsable(city, days);
    if reply.Some? {
      var parsed := parse(CleanResponse(reply.value));
      if parsed.Some? && Repair(parsed.value, city, days).Some? {
        RepairUsable(parsed.value, city, days);
      }
    }
  }

  /** The fallback is used exactly when the call, the parse or the repair fails. */
  lemma StructuredItineraryFallback(city: string, days: int, reply: Option<string>, parse: string -> Option<Json>)
    ensures reply.None? ==> StructuredItinerary(city, days, reply, parse) == Defaults.FallbackItinerary(city, days)
    ensures reply.Some? && parse(CleanResponse(reply.value)).None? ==>
              StructuredItinerary(city, days, reply, parse) == Defaults.FallbackItinerary(city, days)
    ensures reply.Some? && parse(CleanResponse(reply.value)).Some?
              && Repair(parse(CleanResponse(reply.value)).value, city, days).Some? ==>
              StructuredItinerary(city, days, reply, parse) == Repair(parse(CleanResponse(reply.value)).value, city, days).value
    ensures reply.Some? && parse(CleanResponse(reply.value)).Some?
              && Repair(parse(CleanResponse(reply.value)).value, city, days).None? ==>
              StructuredItinerary(city, days, reply, parse) == Defaults.FallbackItinerary(city, days)
  {
  }

  /** `_get_fallback_itinerary`, building the days with the loop. */
  method BuildFallbackItinerary(city: string, days: int) returns (itinerary: Json)
    ensures itinerary == Defaults.FallbackItinerary(city, days)
  {
    var daily := Defaults.BuildDefaultItinerary(city, days);
    var f := Defaults.FallbackItinerary(city, days);
    itinerary := JObj(f.fields["daily_itinerary" := JArr(daily)]);
    assert itinerary.fields == f.fields;
  }

  /**
   * The two in-place repairs of `itinerary_data`, with the checks that
   * raise: `None` is the fallback.
   */
  method RepairDocument(d: Json, city: string, days: int) returns (r: Option<Json>)
    ensures r == Repair(d, city, days)
  {
    if !d.JObj? {
      return None;
    }
    var fields := d.fields;
    if "restaurants" !in fields {
      fields := fields["restaurants" := Defaults.DefaultRestaurants(city)];
    }
    assert fields == FillRestaurants(d.fields, Defaults.DefaultRestaurants(city));
    if "daily_itinerary" in fields && Len(fields["daily_itinerary"]).None? {
      return None;
    }
    ghost var withRestaurants := fields;
    if "daily_itinerary" !in fields || Len(fields["daily_itinerary"]) == Some(0) {
      var daily := Defaults.BuildDefaultItinerary(city, days);
      fields := fields["daily_itinerary" := JArr(daily)];
    }
    assert fields == FillDays(withRestaurants, JArr(Defaults.DefaultDays(city, days)));
    var restaurants := fields["restaurants"];
    if !restaurants.JObj? || ("breakfast" in restaurants.fields && Len(restaurants.fields["breakfast"]).None?) {
      return None;
    }
    r := Some(JObj(fields));
  }

  /** The part of `create_structured_itinerary` after the model has answered (or raised). */
  method ItineraryFromReply(city: string, days: int, reply: Option<string>, parse: string -> Option<Json>)
    returns (itinerary: Json)
    ensures itinerary == StructuredItinerary(city, days, reply, parse)
  {
    StructuredItineraryFallback(city, days, reply, parse);
    var fallback := BuildFallbackItinerary(city, days);
    itinerary := fallback;
    if reply.Some? {
      var parsed := parse(CleanResponse(reply.value));
      if parsed.Some? {
        var repaired := RepairDocument(parsed.value, city, days);
        if repaired.Some? {
          itinerary := repaired.value;
        }
      }
    }
  }

  /**
   * `create_structured_itinerary`: builds the hotel digest, asks the model
   * once, cleans and parses the reply, and repairs the document, falling
   * back on any failure. Returns the itinerary and what the prompt was
   * built from.
   */
  method CreateStructuredItinerary(destinationCode: string, keywords: seq<string>, budget: int, days: int,
                                   hotels: Option<Lodging.HotelResponse>,
                                   ask: PromptInputs -> Option<string>, parse: string -> Option<Json>)
    returns (itinerary: Json, prompt: PromptInputs)
    ensures prompt == PromptFor(destinationCode, keywords, budget, days, hotels)
    ensures itinerary == StructuredItinerary(Cities.CityName(destinationCode), days, ask(prompt), parse)
  {
    var city := Cities.CityName(destinationCode);
    var hotelInfo := BuildHotelDigest(hotels);
    prompt := PromptInputs(city, keywords, budget, days, hotelInfo);
    var reply := ask(prompt);
    itinerary := ItineraryFromReply(city, days, reply, parse);
  }
}
