/**
 * The program's entry point: read an address (empty for "my address"),
 * reject a non-empty one of the wrong shape without any lookup, otherwise
 * look it up and save a map only when both coordinates came back. Reading
 * the console and printing the messages are not modelled; the outcome says
 * which message the program prints.
 */
module Tracker {
  import opened Wrappers
  import opened Validator
  import opened Locator
  import opened Renderer

  datatype Outcome<F> =
    | InvalidAddress                                   // "That doesn't seem to be a valid IP address..."
    | NotLocated(requested: string, requestFailed: bool)
      // "Oops! There was an error fetching data: ..." when the request failed, else
      // "Hmm, it looks like location data is not available."; then "Sorry, we couldn't ..."
    | MapSaved(requested: string, saved: SavedMap<F>)  // "Successfully retrieved location: ..."
    | Crashed(requested: string, fault: Fault)         // an exception escapes the program

  /** The `__main__` block, for the line `input` read from the console. */
  function Track<F>(input: string, get: string -> Response, parseFloat: string -> Option<F>): (o: Outcome<F>)
    ensures o.InvalidAddress? <==> input != "" && !IsValidIp(input)
    ensures !o.InvalidAddress? ==> o.requested == RequestTarget(Some(input))
    ensures !o.InvalidAddress? ==>
      var lookup := FetchGeolocation(Some(input), get, parseFloat);
      && (o.MapSaved? <==> lookup.Found?)
      && (o.NotLocated? <==> lookup.RequestError? || lookup.NoLocationData?)
      && (o.NotLocated? ==> (o.requestFailed <==> lookup.RequestError?))
      && (o.Crashed? <==> lookup.Raised?)
      && (o.Crashed? ==> o.fault == lookup.fault)
      && (o.MapSaved? ==>
            var found := lookup.location;
            && o.saved.marker.popup == PopupLabel(found.city, found.region, found.country)
            && o.saved.centerLatitude == o.saved.marker.latitude == found.latitude
            && o.saved.centerLongitude == o.saved.marker.longitude == found.longitude)
  {
    if input != "" && !IsValidIp(input) then InvalidAddress
    else
      var lookup := FetchGeolocation(Some(input), get, parseFloat);
      var url := RequestTarget(Some(input));
      match AsReturned(lookup)
      case None => Crashed(url, lookup.fault)
      case Some(t) =>
        if t.latitude.Some? && t.longitude.Some? then
          MapSaved(url, CreateMap(t.latitude.value, t.longitude.value, t.city.value, t.region.value, t.country.value))
        else
          NotLocated(url, lookup.RequestError?)
  }

  /** Empty input skips the shape check and asks for the caller's own address. */
  lemma EmptyInputLooksUpCurrentAddress<F>(get: string -> Response, parseFloat: string -> Option<F>)
    ensures var o := Track("", get, parseFloat);
      !o.InvalidAddress? && o.requested == CurrentIpEndpoint && TargetedAddress(o.requested) == None
  {
    RequestTargetRoundTrip(Some(""));
  }

  /** A well-shaped address is looked up at its own endpoint, unchanged. */
  lemma ValidInputLooksUpThatAddress<F>(input: string, get: string -> Response, parseFloat: string -> Option<F>)
    requires IsValidIp(input)
    ensures var o := Track(input, get, parseFloat);
      && !o.InvalidAddress?
      && o.requested == ServiceRoot + input + JsonSuffix
      && TargetedAddress(o.requested) == Some(input)
  {
    RequestTargetRoundTrip(Some(input));
  }

  /**
   * The program sends at most one request, to the target of its input: two
   * services that agree on that one URL lead to the same outcome.
   */
  lemma OnlyTheTargetIsRequested<F>(input: string, get: string -> Response, other: string -> Response,
                                    parseFloat: string -> Option<F>)
    requires get(RequestTarget(Some(input))) == other(RequestTarget(Some(input)))
    ensures Track(input, get, parseFloat) == Track(input, other, parseFloat)
  {
  }

  /** Rejected input is never looked up: the outcome does not depend on the service at all. */
  lemma RejectedInputIsNotLookedUp<F>(input: string, get: string -> Response, other: string -> Response,
                                      parseFloat: string -> Option<F>)
    requires input != "" && !IsValidIp(input)
    ensures Track(input, get, parseFloat) == Track(input, other, parseFloat) == InvalidAddress
  {
  }

  /** A map is saved only for a lookup that returned both coordinates and all three names. */
  lemma MapOnlyWithCoordinates<F>(input: string, get: string -> Response, parseFloat: string -> Option<F>)
    ensures var o, lookup := Track(input, get, parseFloat), FetchGeolocation(Some(input), get, parseFloat);
      o.MapSaved? <==>
        && !o.InvalidAddress?
        && AsReturned(lookup).Some?
        && AsReturned(lookup).value.latitude.Some?
        && AsReturned(lookup).value.longitude.Some?
  {
  }
}
