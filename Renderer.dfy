/**
 * `create_map`: a map centred on the location with one marker whose popup
 * names the place, saved under a fixed file name. Drawing and writing the
 * HTML belong to the mapping library; the model keeps what the program
 * decides: the centre, the zoom, the tiles, the marker and the file name.
 */
module Renderer {
  import opened Text

  const OutputFile := "user_location.html"
  const ZoomStart := 12
  const Tiles := "OpenStreetMap"
  const IconColor := "blue"
  const IconName := "info-sign"
  const LabelPrefix := "Location: "

  datatype Marker<F> = Marker(latitude: F, longitude: F, popup: string, iconColor: string, icon: string)

  /** The map the program saves. */
  datatype SavedMap<F> = SavedMap(
    centerLatitude: F, centerLongitude: F, zoom: nat, tiles: string, marker: Marker<F>, path: string)

  /** The popup text `Location: {city}, {region}, {country}`. */
  function PopupLabel(city: string, region: string, country: string): (text: string)
    ensures text == LabelPrefix + Join([city, " " + region, " " + country], ',')
  {
    var fields := [city, " " + region, " " + country];
    assert fields[1..] == [" " + region, " " + country] && fields[1..][1..] == [" " + country];
    assert Join(fields[1..][1..], ',') == " " + country;
    assert Join(fields[1..], ',') == " " + region + [','] + (" " + country);
    assert Join(fields, ',') == city + [','] + (" " + region + [','] + (" " + country));
    LabelPrefix + city + ", " + region + ", " + country
  }

  /**
   * The place names are recoverable from the label when none of them
   * contains a comma: after the prefix, the comma-separated pieces are the
   * city and the space-led region and country.
   */
  lemma PopupLabelFields(city: string, region: string, country: string)
    requires ',' !in city && ',' !in region && ',' !in country
    ensures var text := PopupLabel(city, region, country);
      && |text| >= |LabelPrefix| && text[..|LabelPrefix|] == LabelPrefix
      && Split(text[|LabelPrefix|..], ',') == [city, " " + region, " " + country]
  {
    var fields := [city, " " + region, " " + country];
    forall k | 0 <= k < 3 ensures ',' !in fields[k] {
      if k > 0 { assert fields[k][1..] == [region, country][k - 1]; }
    }
    SplitJoin(fields, ',');
    var text := PopupLabel(city, region, country);
    assert text[|LabelPrefix|..] == Join(fields, ',');
  }

  /** `create_map(lat, lon, city, region, country)`. */
  function CreateMap<F>(latitude: F, longitude: F, city: string, region: string, country: string)
    : (m: SavedMap<F>)
    ensures m.centerLatitude == m.marker.latitude == latitude
    ensures m.centerLongitude == m.marker.longitude == longitude
    ensures m.marker.popup == PopupLabel(city, region, country)
    ensures m.zoom == ZoomStart && m.tiles == Tiles
    ensures m.marker.iconColor == IconColor && m.marker.icon == IconName
    ensures m.path == OutputFile
  {
    SavedMap(latitude, longitude, ZoomStart, Tiles,
      Marker(latitude, longitude, PopupLabel(city, region, country), IconColor, IconName), OutputFile)
  }
}
