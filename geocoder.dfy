/** The external geocoding service, seen only through the queries it is sent. */
module Geocoding {
  import opened Wrappers
  import opened Cache

  /** The free-text place description sent to the service: `"<city>, <country>"`. */
  function Query(city: string, country: string): string {
    city + ", " + country
  }

  class Geocoder {
    /** The first location the service finds for each query, or `None` when it finds nothing. */
    const answer: string -> Option<LatLon>
    /** Every query sent so far, in order. */
    var queries: seq<string>

    constructor (answer: string -> Option<LatLon>)
      ensures this.answer == answer && queries == []
    {
      this.answer := answer;
      queries := [];
    }

    /** `geolocator.geocode(query)`: one request to the service. */
    method Geocode(query: string) returns (location: Option<LatLon>)
      modifies this
      ensures queries == old(queries) + [query]
      ensures location == answer(query)
    {
      queries := queries + [query];
      location := answer(query);
    }
  }
}
