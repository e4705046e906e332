/** Geographic points and the compass-bearing step of `calculate_azimuth`.
    The spherical trigonometry itself (sin, cos, atan2) is not modelled: the
    raw `degrees(atan2(x, y))` value is an input. */
module Geodesy {

  /** A point picked on the map: latitude and longitude in degrees. */
  datatype GeoPoint = GeoPoint(lat: real, lon: real)

  /** Folds a raw `atan2` result, in degrees, onto the compass circle by
      adding one full turn to a negative value. */
  function NormalizeBearing(deg: real): (r: real)
    ensures -180.0 <= deg <= 180.0 ==> 0.0 <= r < 360.0
    ensures r == deg || r == deg + 360.0
    ensures r == deg <==> deg >= 0.0
  {
    if deg < 0.0 then deg + 360.0 else deg
  }

  /** The bearing from `observer` to `target`, given the raw atan2-in-degrees
      of the spherical bearing formula as `rawDegrees`. */
  function CalculateAzimuth(rawDegrees: (GeoPoint, GeoPoint) -> real,
                            observer: GeoPoint, target: GeoPoint): (r: real)
    ensures -180.0 <= rawDegrees(observer, target) <= 180.0 ==> 0.0 <= r < 360.0
    ensures r == rawDegrees(observer, target) || r == rawDegrees(observer, target) + 360.0
  {
    NormalizeBearing(rawDegrees(observer, target))
  }

  /** The normalised bearing is the one value in [0, 360) that names the
      same direction (differs by a whole number of turns) as the raw angle. */
  lemma NormalizeBearingUnique(deg: real, turns: int)
    requires -180.0 <= deg <= 180.0
    requires 0.0 <= deg + 360.0 * turns as real < 360.0
    ensures deg + 360.0 * turns as real == NormalizeBearing(deg)
  {
  }

  /** Normalising an already normalised bearing changes nothing. */
  lemma NormalizeBearingIdempotent(deg: real)
    requires -180.0 <= deg <= 180.0
    ensures NormalizeBearing(NormalizeBearing(deg)) == NormalizeBearing(deg)
  {
  }

  /** Due east along the equator: a raw angle of 90 degrees stays 90, and due
      west (-90) becomes 270. */
  lemma NormalizeBearingCompassPoints()
    ensures NormalizeBearing(90.0) == 90.0
    ensures NormalizeBearing(-90.0) == 270.0
    ensures NormalizeBearing(-180.0) == 180.0 && NormalizeBearing(180.0) == 180.0
  {
  }
}
