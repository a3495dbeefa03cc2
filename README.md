# Geolocation tracker, modelled in Dafny

The program asks for an IPv4 address, or for nothing, which means "my own
address". It checks the address's dotted-quad shape and asks the ipinfo.io
service where the address is. When both coordinates come back, it saves a map
with one marker labelled with the city, region and country.

This project models the decisions the program makes, as pure functions:

- `Validator`: the shape check `is_valid_ip`. It is a hand-written
  group-and-separator recogniser for the pattern
  `^(?:[0-9]{1,3}\.){3}[0-9]{1,3}$` under `re.match`. The recogniser is proved
  equal to a reference definition built on `str.split('.')`. Python's `$` also
  matches just before one final newline, and the model keeps that.
- `Text`: `str.split` with a one-character separator, and `str.join` as its
  inverse, with both round trips proved.
- `Locator`: `fetch_geolocation`. It chooses the request URL, splits `loc` on
  commas, applies the `"Unknown"` defaults, and returns either five values or
  five `None`s. The two exceptions it does not catch are modelled too. The
  network is a parameter `get` from URL to response. Python's `float` is a
  parameter `parseFloat`, a partial function, so coordinates stay abstract.
- `Renderer`: what `create_map` decides: the centre, the zoom, the tiles, the
  one marker, its popup text `Location: {city}, {region}, {country}`, and the
  file name.
- `Tracker`: the `__main__` block. It rejects a non-empty malformed address
  without any lookup. It sends an empty input to the current-IP endpoint. It
  saves a map only when both coordinates are present, and it shows what
  escapes as an exception.

Two details of the code decide the model:

- The pattern uses `[0-9]`, not `\d`, so a Unicode decimal digit such as
  U+0661 is rejected (`Validator.RejectsNonAsciiDigit`).
- A `loc` whose pieces are not numbers is not treated as missing data:
  `float(...)` raises `ValueError`, `location[1]` raises `IndexError`, and
  only `RequestException` is caught (geolocationTracker..py:53), so both
  escape. The model returns `Raised(...)` for these, in the code's order: the
  latitude is parsed before the second piece is indexed.

## Model

| member | source | states |
|---|---|---|
| `Validator.IsValidIpShape` | geolocationTracker..py:6-13 | `is_valid_ip` is true exactly for four groups of one to three ASCII digits joined by three dots, optionally followed by a single newline (`$`); both directions |
| `Validator.MatchGroupsPieces` | geolocationTracker..py:12 | the regex recogniser, for any number of remaining groups, accepts exactly when the dot-separated pieces are that many groups, the last possibly carrying the newline `$` admits |
| `Validator.FourGroups` | geolocationTracker..py:12-13 | four groups joined by dots and followed by `tail` pass exactly when `tail` is empty or one newline |
| `Validator.AcceptsJoinedGroups` | geolocationTracker..py:12-13 | every four digit groups joined by dots are accepted, with or without a final newline |
| `Validator.AcceptedIsJoinedGroups` | geolocationTracker..py:12-13 | every accepted string is four digit groups joined by dots, with or without one final newline: the converse of `AcceptsJoinedGroups` |
| `Validator.WithoutNewlineIsDottedQuad` | geolocationTracker..py:12-13 | for a string without newlines (a console line) the check is exactly the dotted-quad shape |
| `Validator.AcceptsSampleAddress` | geolocationTracker..py:12-13 | `10.0.0.1` is accepted |
| `Validator.AcceptsOutOfRangeGroups` | geolocationTracker..py:12-13 | `999.999.999.999` is accepted: there is no range check |
| `Validator.AcceptsFinalNewline` | geolocationTracker..py:12-13 | `1.2.3.4` followed by one newline is accepted |
| `Validator.RejectsTwoNewlines` | geolocationTracker..py:12-13 | `1.2.3.4` followed by two newlines is rejected |
| `Validator.RejectsTrailingSpace` | geolocationTracker..py:12-13 | `1.2.3.4 ` is rejected |
| `Validator.RejectsEmpty` | geolocationTracker..py:12-13 | the empty string is rejected |
| `Validator.RejectsThreeGroups` | geolocationTracker..py:12-13 | `10.0.0` is rejected |
| `Validator.RejectsFiveGroups` | geolocationTracker..py:12-13 | `1.2.3.4.5` is rejected |
| `Validator.RejectsLetters` | geolocationTracker..py:12-13 | `abc` is rejected |
| `Validator.RejectsLongGroup` | geolocationTracker..py:12-13 | a group of four digits is rejected |
| `Validator.RejectsEmptyGroup` | geolocationTracker..py:12-13 | an empty group between two dots is rejected |
| `Validator.RejectsNonAsciiDigit` | geolocationTracker..py:12-13 | a Unicode digit outside `[0-9]` is rejected |
| `Text.SplitPiecesLackSeparator` | geolocationTracker..py:40 | no piece produced by `str.split` contains the separator |
| `Text.SplitSnocOther` | geolocationTracker..py:40 | appending a character other than the separator extends only the last piece of the split |
| `Text.JoinSplit` | geolocationTracker..py:40 | joining the pieces of a split with the separator gives back the string |
| `Text.SplitJoin` | geolocationTracker..py:40 | splitting a join of separator-free pieces gives back the pieces |
| `Text.SplitFields` | geolocationTracker..py:40-42 | the first piece is the text before the first separator; a second piece exists exactly when there is a separator, and it is the text up to the next one |
| `Locator.RequestTarget` | geolocationTracker..py:24-27 | the URL is on the service root, and it differs from the current-IP endpoint exactly when a non-empty address is given |
| `Locator.RequestTargetRoundTrip` | geolocationTracker..py:24-27 | the address read back from the URL is the one given when it is non-empty, and none for `None` or the empty string |
| `Locator.FetchGeolocation` | geolocationTracker..py:16-55 | a request failure gives the request-error result; a body without `loc` gives the no-location result; the location is found exactly when both coordinate texts parse, and then it is the one the body describes; otherwise the escaping exception is `IndexError` when the latitude parsed but `loc` has no comma, else `ValueError` |
| `Locator.DescribedLocationIsFound` | geolocationTracker..py:38-52 | a body that describes a location makes the lookup return exactly that location |
| `Locator.UnknownOnlyWhenAbsent` | geolocationTracker..py:47-50 | city, region and country equal the body's value when the key is present, and are `Unknown` only when the key is absent or the value is literally `Unknown` |
| `Locator.CoordinateTexts` | geolocationTracker..py:40-42 | in `lat,lon` followed by nothing or further comma pieces, latitude text is `lat` and longitude text is `lon`; further pieces are ignored |
| `Locator.LocWithoutComma` | geolocationTracker..py:40-53 | a `loc` without a comma raises `ValueError` when it is not a number, and `IndexError` otherwise |
| `Locator.DecodesLoc` | geolocationTracker..py:36-52 | a body whose `loc` is `lat,lon` (optionally followed by further comma pieces) with both texts parsable yields those coordinates and the place names from the body, `Unknown` where absent |
| `Locator.DecodesSampleBody` | geolocationTracker..py:36-52 | the body `{"loc": "37.7,-122.4", "city": "SF"}` yields those coordinates, `SF`, and `Unknown` twice |
| `Locator.AsReturned` | geolocationTracker..py:39-55 | the returned tuple is all five values or all five `None`s, never a mix, and there is no tuple when an exception escapes |
| `Renderer.PopupLabel` | geolocationTracker..py:71 | the popup text is the prefix `Location: ` followed by city, region and country joined by commas, each of the last two led by a space |
| `Renderer.PopupLabelFields` | geolocationTracker..py:71 | for comma-free names, the popup starts with `Location: ` and the rest splits on commas into the city, the space-led region and the space-led country |
| `Renderer.CreateMap` | geolocationTracker..py:58-77 | the map is centred where the marker is, at the given coordinates; the zoom is 12 and the tiles `OpenStreetMap`; the marker carries the popup text and a blue `info-sign` icon; the file is `user_location.html` |
| `Tracker.Track` | geolocationTracker..py:80-98 | input is rejected exactly when it is non-empty and fails the shape check; otherwise the target of the raw input is requested, a map is saved exactly when the lookup found a location (with its popup and coordinates), a failure is reported for request errors and missing `loc`, telling the two apart as the lookup's messages do; a raised exception escapes |
| `Tracker.EmptyInputLooksUpCurrentAddress` | geolocationTracker..py:85-90 | empty input is not rejected and requests the current-IP endpoint, which names no address |
| `Tracker.ValidInputLooksUpThatAddress` | geolocationTracker..py:85-90 | a well-shaped address requests `https://ipinfo.io/<address>/json`, which names that address |
| `Tracker.OnlyTheTargetIsRequested` | geolocationTracker..py:85-90 | two services that agree on the one target URL lead to the same outcome |
| `Tracker.RejectedInputIsNotLookedUp` | geolocationTracker..py:85-86 | a rejected input's outcome does not depend on the service at all |
| `Tracker.MapOnlyWithCoordinates` | geolocationTracker..py:92-98 | a map is saved exactly when the input passed and the returned tuple has both a latitude and a longitude |

## Left out

- The network call (`requests.get`, `raise_for_status`, `response.json()`) is the parameter `get`. All of its `RequestException` failures are one `RequestFailed` answer. This includes connection errors, non-2xx statuses and JSON decoding errors, which requests raises as a subclass of `RequestException`.
- Locator.FetchGeolocation: the JSON body is modelled as a map from keys to strings. A body that is not an object, or a `loc`, `city`, `region` or `country` value that is not a string, is not modelled.
- Python's `float(...)` is the parameter `parseFloat`: floating point is not modelled, only which texts are handed to it.
- Renderer.CreateMap: the HTML document the mapping library writes, and a failure to write it, are not modelled. Only the map's parameters, the marker and the file name are.
- Reading the console line and printing the messages are not modelled. The outcome of `Tracker.Track` names which messages are printed, including whether the lookup reported a request error or missing location data.
- How requests encodes the address into the URL is not modelled. The target is the plain concatenation the code writes.
