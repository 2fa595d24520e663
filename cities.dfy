/** The airport-code to display-city table and its lookup (`AIRPORT_TO_CITY`, `get_city_name`). */
module Cities {

  /** The fixed table of known airport codes and the city each one is shown as. */
  const AirportToCity: map<string, string> := map[
    // Europe
    "BCN" := "Barcelona, Spain",
    "MAD" := "Madrid, Spain",
    "PAR" := "Paris, France",
    "ROM" := "Rome, Italy",
    "AMS" := "Amsterdam, Netherlands",
    "BER" := "Berlin, Germany",
    "LIS" := "Lisbon, Portugal",
    "DUB" := "Dublin, Ireland",
    "VIE" := "Vienna, Austria",
    "PRG" := "Prague, Czech Republic",
    // USA
    "NYC" := "New York, USA",
    "LAX" := "Los Angeles, USA",
    "MIA" := "Miami, USA",
    "SFO" := "San Francisco, USA",
    "LAS" := "Las Vegas, USA",
    // Asia and Middle East
    "DXB" := "Dubai, UAE",
    "BKK" := "Bangkok, Thailand",
    "SIN" := "Singapore",
    "TYO" := "Tokyo, Japan",
    "HKG" := "Hong Kong",
    // UK
    "LHR" := "London, UK",
    "LGW" := "London, UK",
    "STN" := "London, UK",
    "LTN" := "London, UK",
    "LCY" := "London, UK",
    "MAN" := "Manchester, UK",
    "BHX" := "Birmingham, UK",
    "EDI" := "Edinburgh, UK",
    "GLA" := "Glasgow, UK",
    "BRS" := "Bristol, UK",
    "NCL" := "Newcastle, UK",
    "LPL" := "Liverpool, UK"
  ]

  /**
   * The display name for an airport code: the table's city for a listed
   * code, and the code itself for any other.
   */
  function CityName(code: string): (city: string)
    ensures code in AirportToCity ==> city == AirportToCity[code]
    ensures code !in AirportToCity ==> city == code
    ensures city in AirportToCity.Values || city == code
  {
    if code in AirportToCity then AirportToCity[code] else code
  }

  /** The display name is never empty for a non-empty code: no table entry is empty. */
  lemma CityNameNonEmpty(code: string)
    requires code != ""
    ensures CityName(code) != ""
  {
  }

  /** Entries of the table outside the UK. */
  lemma CityNameListed()
    ensures CityName("BCN") == "Barcelona, Spain"
    ensures CityName("SIN") == "Singapore"
  {
  }

  /** The five London airports all name the same city. */
  lemma CityNameLondon()
    ensures CityName("LHR") == CityName("LGW") == CityName("STN") == "London, UK"
    ensures CityName("LTN") == CityName("LCY") == "London, UK"
  {
  }

  /** An unlisted code is returned unchanged. */
  lemma CityNameUnknown()
    ensures CityName("ZZZ") == "ZZZ"
  {
  }
}
