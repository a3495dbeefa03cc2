/**
 * `fetch_geolocation`: one GET against the geolocation service, then the
 * decoding of its JSON body into a location. The network is the parameter
 * `get`, which maps a request target to the service's answer; Python's
 * `float` is the parameter `parseFloat`, a partial function whose values the
 * model never inspects.
 */
module Locator {
  import opened Wrappers
  import opened Text

  /** The per-address endpoints are this root, the address, then `/json`. */
  const ServiceRoot := "https://ipinfo.io/"
  const JsonSuffix := "/json"
  /** The endpoint that resolves the caller's own public address. */
  const CurrentIpEndpoint := "https://ipinfo.io/json"
  /** Stand-in for a place name the service did not return. */
  const Unknown := "Unknown"

  /**
   * The service's answer as the program sees it: either the request raised a
   * `RequestException` (connection failure, a non-2xx status from
   * `raise_for_status`, or a body that is not JSON), or the decoded object.
   */
  datatype Response = RequestFailed | Json(data: map<string, string>)

  /** Exceptions the lookup lets escape: it catches only `RequestException`. */
  datatype Fault =
    | IndexError   // `location[1]` on a `loc` without a comma
    | ValueError   // `float(...)` on a piece that is not a number

  /** The five values a successful lookup returns. */
  datatype Location<F> = Location(latitude: F, longitude: F, city: string, region: string, country: string)

  /** How one call of `fetch_geolocation` ends. */
  datatype Lookup<F> =
    | Found(location: Location<F>)
    | RequestError       // reported, then five `None`s
    | NoLocationData     // reported, then five `None`s
    | Raised(fault: Fault)

  /** Python's truthiness of the `ip` argument: present and non-empty. */
  predicate Given(ip: Option<string>) {
    ip.Some? && ip.value != ""
  }

  /** The URL requested for `ip`. */
  function RequestTarget(ip: Option<string>): (url: string)
    ensures |url| > |ServiceRoot| && url[..|ServiceRoot|] == ServiceRoot
    ensures Given(ip) <==> url != CurrentIpEndpoint
  {
    if Given(ip) then ServiceRoot + ip.value + JsonSuffix else CurrentIpEndpoint
  }

  /** The address a request target asks about, read back from the URL. */
  function TargetedAddress(url: string): Option<string> {
    if url != CurrentIpEndpoint && |url| >= |ServiceRoot| + |JsonSuffix|
       && url[..|ServiceRoot|] == ServiceRoot && url[|url| - |JsonSuffix|..] == JsonSuffix
    then Some(url[|ServiceRoot|..|url| - |JsonSuffix|])
    else None
  }

  /** The target names exactly the address given, and no address when none is given. */
  lemma RequestTargetRoundTrip(ip: Option<string>)
    ensures TargetedAddress(RequestTarget(ip)) == if Given(ip) then ip else None
  {
    var url := RequestTarget(ip);
    if Given(ip) {
      assert url[|url| - |JsonSuffix|..] == JsonSuffix;
      assert url[|ServiceRoot|..|url| - |JsonSuffix|] == ip.value;
    }
  }

  /** `data.get(key, 'Unknown')`. */
  function GetOrUnknown(data: map<string, string>, key: string): string {
    if key in data then data[key] else Unknown
  }

  /** `value` is the response's entry for `key`, or `Unknown` when the key is absent. */
  predicate DefaultedTo(data: map<string, string>, key: string, value: string) {
    if key in data then value == data[key] else value == Unknown
  }

  /** Latitude text: everything before the first comma of `loc`. */
  function LatitudeText(loc: string): string {
    Before(loc, ',')
  }

  /** Longitude text: everything between the first and the second comma (or the end). */
  function LongitudeText(loc: string): string
    requires ',' in loc
  {
    Before(After(loc, ','), ',')
  }

  /** Both coordinates of `loc` can be read. */
  predicate Readable<F>(loc: string, parseFloat: string -> Option<F>) {
    && parseFloat(LatitudeText(loc)).Some?
    && ',' in loc
    && parseFloat(LongitudeText(loc)).Some?
  }

  /** `location` is what the response body `data` describes. */
  ghost predicate Describes<F>(data: map<string, string>, parseFloat: string -> Option<F>, location: Location<F>) {
    && "loc" in data
    && ',' in data["loc"]
    && parseFloat(LatitudeText(data["loc"])) == Some(location.latitude)
    && parseFloat(LongitudeText(data["loc"])) == Some(location.longitude)
    && DefaultedTo(data, "city", location.city)
    && DefaultedTo(data, "region", location.region)
    && DefaultedTo(data, "country", location.country)
  }

  /**
   * `fetch_geolocation(ip)`: request the target for `ip`, then read `loc` as
   * `lat,lon[,...]` and the three place names with their defaults.
   */
  function FetchGeolocation<F>(ip: Option<string>, get: string -> Response, parseFloat: string -> Option<F>)
    : (r: Lookup<F>)
    ensures var response := get(RequestTarget(ip));
      && (r.RequestError? <==> response.RequestFailed?)
      && (r.NoLocationData? <==> response.Json? && "loc" !in response.data)
      && (r.Found? <==> response.Json? && "loc" in response.data && Readable(response.data["loc"], parseFloat))
      && (r.Found? ==> Describes(response.data, parseFloat, r.location))
      && (r.Raised? ==>
            response.Json? && "loc" in response.data &&
            var loc := response.data["loc"];
            r.fault == if parseFloat(LatitudeText(loc)).Some? && ',' !in loc then IndexError else ValueError)
  {
    match get(RequestTarget(ip))
    case RequestFailed => RequestError
    case Json(data) =>
      if "loc" !in data then NoLocationData
      else
        var location := Split(data["loc"], ',');
        SplitFields(data["loc"], ',');
        match parseFloat(location[0])
        case None => Raised(ValueError)
        case Some(latitude) =>
          if |location| < 2 then Raised(IndexError)
          else
            match parseFloat(location[1])
            case None => Raised(ValueError)
            case Some(longitude) =>
              Found(Location(latitude, longitude,
                GetOrUnknown(data, "city"), GetOrUnknown(data, "region"), GetOrUnknown(data, "country")))
  }

  /** A response that describes a location makes the lookup return exactly that location. */
  lemma DescribedLocationIsFound<F>(ip: Option<string>, get: string -> Response, parseFloat: string -> Option<F>,
                                    location: Location<F>)
    requires get(RequestTarget(ip)).Json?
    requires Describes(get(RequestTarget(ip)).data, parseFloat, location)
    ensures FetchGeolocation(ip, get, parseFloat) == Found(location)
  {
    var r := FetchGeolocation(ip, get, parseFloat);
    var data := get(RequestTarget(ip)).data;
    assert Readable(data["loc"], parseFloat);
    assert Describes(data, parseFloat, r.location);
  }

  /** A place name is `Unknown` only when the response lacks it or says exactly that. */
  lemma UnknownOnlyWhenAbsent<F>(ip: Option<string>, get: string -> Response, parseFloat: string -> Option<F>)
    requires FetchGeolocation(ip, get, parseFloat).Found?
    ensures var data, location := get(RequestTarget(ip)).data, FetchGeolocation(ip, get, parseFloat).location;
      && (location.city == Unknown <==> "city" !in data || data["city"] == Unknown)
      && (location.region == Unknown <==> "region" !in data || data["region"] == Unknown)
      && (location.country == Unknown <==> "country" !in data || data["country"] == Unknown)
      && ("city" in data ==> location.city == data["city"])
      && ("region" in data ==> location.region == data["region"])
      && ("country" in data ==> location.country == data["country"])
  {
  }

  /**
   * In `lat,lon` followed by nothing or by further comma-separated pieces,
   * the latitude is read from `lat` and the longitude from `lon`; the
   * further pieces are ignored.
   */
  lemma CoordinateTexts(loc: string, lat: string, lon: string, rest: string)
    requires ',' !in lat && ',' !in lon
    requires rest == [] || rest[0] == ','
    requires loc == lat + "," + lon + rest
    ensures ',' in loc
    ensures LatitudeText(loc) == lat && LongitudeText(loc) == lon
  {
    CutAt(lat, ',', lon + rest);
    assert loc == lat + [','] + (lon + rest);
    if rest == [] {
      assert lon + rest == lon;
      BeforeNone(lon, ',');
    } else {
      assert lon + rest == lon + [','] + rest[1..];
      CutAt(lon, ',', rest[1..]);
    }
  }

  /** A `loc` without a comma raises: `ValueError` if it is not a number, else `IndexError`. */
  lemma LocWithoutComma<F>(ip: Option<string>, get: string -> Response, parseFloat: string -> Option<F>)
    requires get(RequestTarget(ip)).Json? && "loc" in get(RequestTarget(ip)).data
    requires ',' !in get(RequestTarget(ip)).data["loc"]
    ensures FetchGeolocation(ip, get, parseFloat) ==
      Raised(if parseFloat(get(RequestTarget(ip)).data["loc"]).Some? then IndexError else ValueError)
  {
  }

  /**
   * A body whose `loc` is `lat,lon`, possibly followed by further pieces,
   * yields the parsed `lat` and `lon` and the place names with their defaults.
   */
  lemma DecodesLoc<F>(ip: Option<string>, get: string -> Response, parseFloat: string -> Option<F>,
                      lat: string, lon: string, rest: string, latitude: F, longitude: F)
    requires get(RequestTarget(ip)).Json? && "loc" in get(RequestTarget(ip)).data
    requires get(RequestTarget(ip)).data["loc"] == lat + "," + lon + rest
    requires ',' !in lat && ',' !in lon && (rest == [] || rest[0] == ',')
    requires parseFloat(lat) == Some(latitude) && parseFloat(lon) == Some(longitude)
    ensures var data := get(RequestTarget(ip)).data;
      FetchGeolocation(ip, get, parseFloat) == Found(Location(latitude, longitude,
        GetOrUnknown(data, "city"), GetOrUnknown(data, "region"), GetOrUnknown(data, "country")))
  {
    var data := get(RequestTarget(ip)).data;
    CoordinateTexts(data["loc"], lat, lon, rest);
    DescribedLocationIsFound(ip, get, parseFloat, Location(latitude, longitude,
      GetOrUnknown(data, "city"), GetOrUnknown(data, "region"), GetOrUnknown(data, "country")));
  }

  /**
   * The service body `{"loc": "37.7,-122.4", "city": "SF"}` yields those
   * coordinates, the city, and `Unknown` for region and country.
   */
  lemma DecodesSampleBody<F>(ip: Option<string>, get: string -> Response, parseFloat: string -> Option<F>,
                             latitude: F, longitude: F)
    requires get(RequestTarget(ip)) == Json(map["loc" := "37.7,-122.4", "city" := "SF"])
    requires parseFloat("37.7") == Some(latitude) && parseFloat("-122.4") == Some(longitude)
    ensures FetchGeolocation(ip, get, parseFloat) == Found(Location(latitude, longitude, "SF", Unknown, Unknown))
  {
    DecodesLoc(ip, get, parseFloat, "37.7", "-122.4", "", latitude, longitude);
  }

  /** The five values `fetch_geolocation` returns; `None` is Python's. */
  datatype Returned<F> = Returned(
    latitude: Option<F>, longitude: Option<F>, city: Option<string>, region: Option<string>, country: Option<string>)

  /**
   * The tuple a lookup returns, or `None` when it raises instead. It never
   * mixes present and absent values.
   */
  function AsReturned<F>(r: Lookup<F>): (t: Option<Returned<F>>)
    ensures t.None? <==> r.Raised?
    ensures t.Some? ==>
      var v := t.value;
      && (v.latitude.Some? <==> r.Found?) && (v.longitude.Some? <==> r.Found?)
      && (v.city.Some? <==> r.Found?) && (v.region.Some? <==> r.Found?) && (v.country.Some? <==> r.Found?)
    ensures r.Found? ==>
      t == Some(Returned(Some(r.location.latitude), Some(r.location.longitude),
                         Some(r.location.city), Some(r.location.region), Some(r.location.country)))
  {
    match r
    case Found(l) => Some(Returned(Some(l.latitude), Some(l.longitude), Some(l.city), Some(l.region), Some(l.country)))
    case RequestError => Some(Returned(None, None, None, None, None))
    case NoLocationData => Some(Returned(None, None, None, None, None))
    case Raised(_) => None
  }
}
