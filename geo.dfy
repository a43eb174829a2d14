/** Geographic values shared by the parser, the simplifier, the store and the map screens. */
module Geo {
  /** Google Maps' `LatLng`: latitude and longitude in decimal degrees, as exact reals. */
  datatype LatLng = LatLng(latitude: real, longitude: real)

  /** The latitude the Maps constructor keeps: `max(-90, min(90, lat))`. */
  function ClampLatitude(lat: real): (r: real)
    ensures -90.0 <= r <= 90.0
    ensures -90.0 <= lat <= 90.0 ==> r == lat
    ensures lat > 90.0 ==> r == 90.0
    ensures lat < -90.0 ==> r == -90.0
  {
    if lat > 90.0 then 90.0 else if lat < -90.0 then -90.0 else lat
  }

  /**
   * The longitude the Maps constructor keeps: the one in [-180, 180) that differs from
   * `lng` by a whole number of turns.
   */
  function WrapLongitude(lng: real): (r: real)
    ensures -180.0 <= r < 180.0
    ensures -180.0 <= lng < 180.0 ==> r == lng
    ensures ((lng - r) / 360.0).Floor as real == (lng - r) / 360.0
  {
    lng - 360.0 * ((lng + 180.0) / 360.0).Floor as real
  }

  /** `LatLng(lat, lng)` as Google Maps builds it: latitude clamped, longitude wrapped. */
  function NewLatLng(lat: real, lng: real): (p: LatLng)
    ensures p.latitude == ClampLatitude(lat) && p.longitude == WrapLongitude(lng)
    ensures -90.0 <= lat <= 90.0 && -180.0 <= lng < 180.0 ==> p == LatLng(lat, lng)
  {
    LatLng(ClampLatitude(lat), WrapLongitude(lng))
  }

  /** Two longitudes in [-180, 180) a whole number of turns apart are the same longitude. */
  lemma WrapUnique(lng: real, r: real)
    requires -180.0 <= r < 180.0
    requires ((lng - r) / 360.0).Floor as real == (lng - r) / 360.0
    ensures r == WrapLongitude(lng)
  {
    var w := WrapLongitude(lng);
    var k := ((lng - r) / 360.0).Floor;
    var j := ((lng - w) / 360.0).Floor;
    assert r - w == 360.0 * (j - k) as real;
  }
}
