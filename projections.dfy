/** The EPSG code of the UTM zone containing a latitude and longitude. */
module Projections {
  import opened Py

  /** Northern-hemisphere UTM codes start at 32601, southern ones at 32701;
      a latitude of exactly zero counts as south. */
  function UtmBase(lat: real): (r: int)
    ensures r == 32601 <==> lat > 0.0
    ensures r == 32701 <==> lat <= 0.0
  {
    if lat > 0.0 then 32601 else 32701
  }

  /** `get_utm_code`: the base plus the six-degree zone index, where Python's
      `int()` truncates toward zero. */
  function UtmCode(lat: real, lon: real): (r: int)
    ensures var zone := r - UtmBase(lat);
      var q := (180.0 + lon) / 6.0;
      && (q >= 0.0 ==> zone as real <= q < zone as real + 1.0)
      && (q < 0.0 ==> zone as real - 1.0 < q <= zone as real)
  {
    UtmBase(lat) + TruncToInt((180.0 + lon) / 6.0)
  }

  /** For longitudes in [-180, 180) the code is one of the 60 zones above the base. */
  lemma UtmCodeRange(lat: real, lon: real)
    requires -180.0 <= lon < 180.0
    ensures UtmBase(lat) <= UtmCode(lat, lon) <= UtmBase(lat) + 59
  {
    var q := (180.0 + lon) / 6.0;
    assert 0.0 <= q < 60.0;
  }

  /** Moving east never lowers the code. */
  lemma UtmCodeMonotone(lat: real, lon1: real, lon2: real)
    requires lon1 <= lon2
    ensures UtmCode(lat, lon1) <= UtmCode(lat, lon2)
  {
    TruncMonotone((180.0 + lon1) / 6.0, (180.0 + lon2) / 6.0);
  }

  /** Latitude matters only through its hemisphere. */
  lemma UtmCodeHemisphereOnly(lat1: real, lat2: real, lon: real)
    requires (lat1 > 0.0) == (lat2 > 0.0)
    ensures UtmCode(lat1, lon) == UtmCode(lat2, lon)
  {
  }

  /** Each zone is six degrees wide, starting at -180. */
  lemma UtmZoneWidth(lat: real, lon: real, k: int)
    requires 0 <= k < 60 && -180.0 + 6.0 * k as real <= lon < -180.0 + 6.0 * (k + 1) as real
    ensures UtmCode(lat, lon) == UtmBase(lat) + k
  {
    var q := (180.0 + lon) / 6.0;
    assert k as real <= q < (k + 1) as real;
  }
}
