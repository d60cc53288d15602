/**
 * Bounding boxes and the reorderings of their four coordinates that the
 * OpenStreetMap, shapely and gdal_translate conventions call for.
 */
module Geobox {
  import opened Wrappers

  /** A shapely box, as the arguments of `shapely.geometry.box`. */
  datatype Box = Box(minx: real, miny: real, maxx: real, maxy: real)

  function CentreX(b: Box): real { (b.minx + b.maxx) / 2.0 }
  function CentreY(b: Box): real { (b.miny + b.maxy) / 2.0 }
  function Width(b: Box): real { b.maxx - b.minx }
  function Height(b: Box): real { b.maxy - b.miny }

  /** The box centred on (lon, lat), deltalon wide and deltalat high. */
  function MakeBbox(lat: real, lon: real, deltalat: real, deltalon: real): (b: Box)
    ensures CentreX(b) == lon && CentreY(b) == lat
    ensures Width(b) == deltalon && Height(b) == deltalat
  {
    Box(lon - deltalon / 2.0, lat - deltalat / 2.0, lon + deltalon / 2.0, lat + deltalat / 2.0)
  }

  /** Every box is the one built from its own centre and size. */
  lemma MakeBboxOfCentre(b: Box)
    ensures MakeBbox(CentreY(b), CentreX(b), Height(b), Width(b)) == b
  {
  }

  /**
   * An OpenStreetMap bounding box lists (south lat, north lat, west lon,
   * east lon); shapely wants (west, south, east, north). Indexing the array
   * with [2, 0, 3, 1] raises IndexError when it has fewer than four entries.
   */
  function OsmToShapelyBox(osm: seq<real>): (r: Result<Box>)
    ensures r.Err? <==> |osm| < 4
    ensures r.Err? ==> r.error == IndexError
    ensures r.Ok? ==>
      r.value.minx == osm[2] && r.value.miny == osm[0] && r.value.maxx == osm[3] && r.value.maxy == osm[1]
  {
    if |osm| < 4 then Err(IndexError) else Ok(Box(osm[2], osm[0], osm[3], osm[1]))
  }

  function Lo(a: real, b: real): real { if a <= b then a else b }
  function Hi(a: real, b: real): real { if a <= b then b else a }

  /** A box's `.bounds`: shapely reports the least and the greatest x and y
      of its corners, in whichever order `box()` was given them. */
  function Bounds(b: Box): (r: Box)
    ensures r.minx <= r.maxx && r.miny <= r.maxy
    ensures {r.minx, r.maxx} == {b.minx, b.maxx} && {r.miny, r.maxy} == {b.miny, b.maxy}
  {
    Box(Lo(b.minx, b.maxx), Lo(b.miny, b.maxy), Hi(b.minx, b.maxx), Hi(b.miny, b.maxy))
  }

  /** The bounds are the box's own arguments exactly when it was built
      west to east and south to north. */
  lemma BoundsOfOrdered(b: Box)
    ensures Bounds(b) == b <==> b.minx <= b.maxx && b.miny <= b.maxy
  {
  }

  /** gdal_translate's -projwin order of bounds (minx, miny, maxx, maxy):
      upper-left x, upper-left y, lower-right x, lower-right y. */
  function GdalOrder(b: Box): seq<real> { [b.minx, b.maxy, b.maxx, b.miny] }

  /** `shapely_to_gdal_box`: the -projwin list of the box's bounds. Its
      upper-left corner is left of and above the lower-right one for every
      box, and it holds the box's two x and two y values. */
  function ShapelyToGdalBox(b: Box): (r: seq<real>)
    ensures |r| == 4
    ensures r[0] <= r[2] && r[1] >= r[3]
    ensures {r[0], r[2]} == {b.minx, b.maxx} && {r[1], r[3]} == {b.miny, b.maxy}
    ensures b.minx <= b.maxx && b.miny <= b.maxy ==> r == [b.minx, b.maxy, b.maxx, b.miny]
  {
    GdalOrder(Bounds(b))
  }

  function Coords(b: Box): seq<real> { [b.minx, b.miny, b.maxx, b.maxy] }

  /** The OSM conversion keeps all four coordinates: it only reorders them. */
  lemma OsmToShapelyIsPermutation(osm: seq<real>)
    requires |osm| == 4
    ensures OsmToShapelyBox(osm).Ok?
    ensures multiset(Coords(OsmToShapelyBox(osm).value)) == multiset(osm)
  {
    var c := Coords(OsmToShapelyBox(osm).value);
    assert c == [osm[2], osm[0], osm[3], osm[1]];
    assert osm == [osm[0], osm[1], osm[2], osm[3]];
    FourItems(osm[2], osm[0], osm[3], osm[1]);
    FourItems(osm[0], osm[1], osm[2], osm[3]);
  }

  lemma FourItems(a: real, b: real, c: real, d: real)
    ensures multiset([a, b, c, d]) == multiset{a} + multiset{b} + multiset{c} + multiset{d}
  {
    calc {
      multiset([a, b, c, d]);
      { assert [a, b, c, d] == [a, b, c] + [d]; }
      multiset([a, b, c]) + multiset{d};
      { assert [a, b, c] == [a, b] + [c]; }
      multiset([a, b]) + multiset{c} + multiset{d};
      { assert [a, b] == [a] + [b]; }
      multiset{a} + multiset{b} + multiset{c} + multiset{d};
    }
  }

  /** Swapping the first and third of four values keeps the multiset. */
  lemma SwapFirstThird(a: real, b: real, c: real, d: real)
    ensures multiset([c, b, a, d]) == multiset([a, b, c, d])
  {
    FourItems(a, b, c, d);
    FourItems(c, b, a, d);
  }

  /** Swapping the second and fourth of four values keeps the multiset. */
  lemma SwapSecondFourth(a: real, b: real, c: real, d: real)
    ensures multiset([a, d, c, b]) == multiset([a, b, c, d])
  {
    FourItems(a, b, c, d);
    FourItems(a, d, c, b);
  }

  /** The gdal conversion keeps all four coordinates: it only reorders them. */
  lemma ShapelyToGdalIsPermutation(b: Box)
    ensures multiset(ShapelyToGdalBox(b)) == multiset(Coords(b))
  {
    var x0, y0, x1, y1 := b.minx, b.miny, b.maxx, b.maxy;
    var g := ShapelyToGdalBox(b);
    assert Coords(b) == [x0, y0, x1, y1];
    if x0 <= x1 && y0 <= y1 {
      assert g == [x0, y1, x1, y0];
      SwapSecondFourth(x0, y0, x1, y1);
    } else if x0 <= x1 {
      assert g == [x0, y0, x1, y1];
    } else if y0 <= y1 {
      assert g == [x1, y1, x0, y0];
      SwapSecondFourth(x0, y0, x1, y1);
      SwapFirstThird(x0, y1, x1, y0);
    } else {
      assert g == [x1, y0, x0, y1];
      SwapFirstThird(x0, y0, x1, y1);
    }
  }

  /** From OSM straight to gdal: (S, N, W, E) becomes the corners
      (min(W, E), max(S, N), max(W, E), min(S, N)); for a box that does not
      cross the antimeridian, (W, N, E, S). */
  lemma OsmToGdal(s: real, n: real, w: real, e: real)
    ensures OsmToShapelyBox([s, n, w, e]).Ok?
    ensures ShapelyToGdalBox(OsmToShapelyBox([s, n, w, e]).value) == [Lo(w, e), Hi(s, n), Hi(w, e), Lo(s, n)]
    ensures w <= e && s <= n ==> ShapelyToGdalBox(OsmToShapelyBox([s, n, w, e]).value) == [w, n, e, s]
  {
  }

  /** An OSM box given east before west comes out with its corners swapped
      into place: (S, N, W, E) = (0, 1, 10, -10) gives (-10, 1, 10, 0). */
  lemma OsmToGdalSwapsInverted()
    ensures ShapelyToGdalBox(OsmToShapelyBox([0.0, 1.0, 10.0, -10.0]).value) == [-10.0, 1.0, 10.0, 0.0]
  {
    OsmToGdal(0.0, 1.0, 10.0, -10.0);
  }
}
