/**
 * Landsat Collection 2 band files into RGB GeoTiffs: grouping band files by
 * scene prefix, and the gdal_translate call that crops and rescales.
 */
module ReduceLandsat {
  import opened Wrappers
  import opened Py
  import opened Jobs
  import Geobox

  /** Input pixel ranges by dtype; 0 is Collection 2's fill value. */
  const PixelRanges: map<string, (int, int)> := map["uint16" := (1, 65535), "uint8" := (1, 255)]

  /** A keyword argument as `kwargs.get` sees it: missing, given as None, or
      given as an integer. */
  datatype Arg = Absent | PyNone | Int(i: int)

  // ----- partition ----------------------------------------------------------

  /** The paths that contain `prefix` and `tag`, in input order. */
  function Matching(paths: seq<string>, prefix: string, tag: string): (r: seq<string>)
    ensures forall p :: p in r <==> p in paths && Contains(p, prefix) && Contains(p, tag)
    ensures |r| <= |paths|
  {
    if paths == [] then []
    else (if Contains(paths[0], prefix) && Contains(paths[0], tag) then [paths[0]] else [])
         + Matching(paths[1..], prefix, tag)
  }

  /** `[p for b in bands for p in paths if prefix in p and f'{band_sig}{b}.' in p]`. */
  function Group(paths: seq<string>, prefix: string, bands: seq<string>, bandSig: string): seq<string>
  {
    if bands == [] then []
    else Matching(paths, prefix, bandSig + bands[0] + ".") + Group(paths, prefix, bands[1..], bandSig)
  }

  /** A group holds exactly the paths with the prefix and some listed band's tag. */
  lemma {:induction false} GroupMembers(paths: seq<string>, prefix: string, bands: seq<string>, bandSig: string, p: string)
    ensures p in Group(paths, prefix, bands, bandSig) <==>
      p in paths && Contains(p, prefix) && exists k :: 0 <= k < |bands| && Contains(p, bandSig + bands[k] + ".")
    decreases |bands|
  {
    if bands != [] {
      GroupMembers(paths, prefix, bands[1..], bandSig, p);
      if exists k :: 0 <= k < |bands[1..]| && Contains(p, bandSig + bands[1..][k] + ".") {
        var k :| 0 <= k < |bands[1..]| && Contains(p, bandSig + bands[1..][k] + ".");
        assert bands[k + 1] == bands[1..][k];
      }
      if exists k :: 0 <= k < |bands| && Contains(p, bandSig + bands[k] + ".") {
        var k :| 0 <= k < |bands| && Contains(p, bandSig + bands[k] + ".");
        if k > 0 {
          assert bands[1..][k - 1] == bands[k];
        }
      }
    }
  }

  /** Groups follow band order: the first band's files come first. */
  lemma GroupBandOrder(paths: seq<string>, prefix: string, bands: seq<string>, bandSig: string, k: nat)
    requires k <= |bands|
    ensures Group(paths, prefix, bands, bandSig) ==
      Group(paths, prefix, bands[..k], bandSig) + Group(paths, prefix, bands[k..], bandSig)
    decreases k
  {
    if k > 0 {
      GroupBandOrder(paths, prefix, bands[1..], bandSig, k - 1);
      assert bands[1..][..k - 1] == bands[..k][1..];
      assert bands[1..][k - 1..] == bands[k..];
    } else {
      assert bands[k..] == bands;
    }
  }

  /** The distinct prefixes: the text of each path before the band signature. */
  function Prefixes(paths: seq<string>, bandSig: string): set<string>
    requires bandSig != []
  {
    set p | p in paths :: Before(p, bandSig)
  }

  /**
   * `partition`: a group per distinct prefix. Splitting on an empty band
   * signature raises ValueError as soon as there is a path to split.
   */
  function Partition(paths: seq<string>, bands: seq<string>, bandSig: string): (r: Result<map<string, seq<string>>>)
    ensures r.Err? <==> bandSig == [] && paths != []
    ensures r.Ok? && bandSig != [] ==> r.value.Keys == Prefixes(paths, bandSig)
    ensures r.Ok? && bandSig != [] ==> forall k :: k in r.value ==> r.value[k] == Group(paths, k, bands, bandSig)
  {
    if paths == [] then Ok(map[])
    else if bandSig == [] then Err(ValueError)
    else Ok(map k | k in Prefixes(paths, bandSig) :: Group(paths, k, bands, bandSig))
  }

  /** Every band file lands in its own scene's group: a path carrying a listed
      band tag is grouped under the text before its band signature. */
  lemma PartitionCovers(paths: seq<string>, bands: seq<string>, bandSig: string, p: string, k: nat)
    requires bandSig != [] && p in paths && k < |bands| && Contains(p, bandSig + bands[k] + ".")
    ensures Partition(paths, bands, bandSig).Ok?
    ensures Before(p, bandSig) in Partition(paths, bands, bandSig).value
    ensures p in Partition(paths, bands, bandSig).value[Before(p, bandSig)]
  {
    var prefix := Before(p, bandSig);
    assert IsPrefix(prefix, p);
    assert p[0..|prefix|] == prefix;
    ContainsAt(p, prefix, 0);
    GroupMembers(paths, prefix, bands, bandSig, p);
  }

  // ----- combine_bands ------------------------------------------------------

  /** `combine_bands`: stack the band files, in order, into `prefix.vrt`. */
  function CombineBands(prefix: string, paths: seq<string>): (j: Job)
    ensures j.outpath == prefix + ".vrt"
    ensures |j.commands| == 3 + |paths| && j.commands[3..] == paths
    ensures j.commands[..3] == ["gdalbuildvrt", "-separate", j.outpath]
  {
    Job(prefix + ".vrt", ["gdalbuildvrt", "-separate", prefix + ".vrt"] + paths)
  }

  /** The .tif that crop_and_rescale writes for a prefix's .vrt is `prefix.tif`
      whenever the prefix itself holds no ".vrt". */
  lemma CombinedTifName(prefix: string, paths: seq<string>)
    requires !Contains(prefix, ".vrt")
    ensures Before(CombineBands(prefix, paths).outpath, ".vrt") + ".tif" == prefix + ".tif"
  {
    HeadUniqueNames();
    BeforeRoundTrip(prefix, ".vrt", []);
    assert prefix + ".vrt" + [] == prefix + ".vrt";
  }

  // ----- crop_and_rescale ---------------------------------------------------

  /** gdal's -projwin wants the box (minx, miny, maxx, maxy) as entries 0, 3,
      2, 1; a shorter list raises IndexError. `show` is Python's str(). */
  function GdalBounds(bounds: seq<real>, show: real -> string): (r: Result<seq<string>>)
    ensures r.Err? <==> |bounds| < 4
    ensures r.Err? ==> r.error == IndexError
  {
    if |bounds| < 4 then Err(IndexError) else Ok([show(bounds[0]), show(bounds[3]), show(bounds[2]), show(bounds[1])])
  }

  /** The reordering is gdal's -projwin order of the bounds as given; for
      bounds listed west to east and south to north it is what
      `geobox.shapely_to_gdal_box` gives for the box with those bounds. */
  lemma GdalBoundsIsGdalBox(bounds: seq<real>, show: real -> string)
    requires |bounds| == 4
    ensures var g := Geobox.GdalOrder(Geobox.Box(bounds[0], bounds[1], bounds[2], bounds[3]));
      GdalBounds(bounds, show) == Ok([show(g[0]), show(g[1]), show(g[2]), show(g[3])])
    ensures bounds[0] <= bounds[2] && bounds[1] <= bounds[3] ==>
      var g := Geobox.ShapelyToGdalBox(Geobox.Box(bounds[0], bounds[1], bounds[2], bounds[3]));
      GdalBounds(bounds, show) == Ok([show(g[0]), show(g[1]), show(g[2]), show(g[3])])
  {
  }

  /** The crop options added when bounds are given (an empty list means none). */
  function CropOptions(bounds: seq<real>, show: real -> string): Result<seq<string>> {
    if bounds == [] then Ok([])
    else match GdalBounds(bounds, show)
      case Err(e) => Err(e)
      case Ok(gb) => Ok(["-projwin_srs", "EPSG:4326", "-projwin"] + gb)
  }

  function ArgString(a: Arg): string
    requires !a.Absent?
  {
    if a.PyNone? then "None" else IntToString(a.i)
  }

  /** `kwargs.get(name, default)` as written: a key given as None stays None. */
  function ScalePointAsWritten(a: Arg, default: int): (r: Arg)
    ensures a.Absent? ==> r == Int(default)
    ensures !a.Absent? ==> r == a
  {
    if a.Absent? then Int(default) else a
  }

  /** The intended default: a point that is missing or None falls back to the
      end of the input range, so the scale always gets a number. */
  function ScalePoint(a: Arg, default: int): (r: int)
    ensures a.Int? ==> r == a.i
    ensures !a.Int? ==> r == default
  {
    if a.Int? then a.i else default
  }

  /**
   * The command line always passes white_point and black_point, as None when
   * the flags are left out. As written, gdal_translate then receives
   * "-scale None None ..."; with the intended default it receives the input
   * range, "-scale 1 65535 ..." for 16-bit input.
   */
  lemma CliLeavesNoneInScale()
    ensures ArgString(ScalePointAsWritten(PyNone, 65535)) == "None"
    ensures ArgString(ScalePointAsWritten(PyNone, 1)) == "None"
    ensures ScalePoint(PyNone, 65535) == 65535 && ScalePoint(PyNone, 1) == 1
  {
  }

  /** The text a scale point reaches gdal_translate as: as written, str() of
      what `kwargs.get` returns ("None" for a given None); as intended, the
      number with the range end as fallback. */
  function ScaleArg(a: Arg, default: int, asWritten: bool): (r: string)
    ensures !asWritten || !a.PyNone? ==> r == IntToString(ScalePoint(a, default))
    ensures asWritten && a.PyNone? ==> r == "None"
  {
    if asWritten then ArgString(ScalePointAsWritten(a, default)) else IntToString(ScalePoint(a, default))
  }

  /**
   * `crop_and_rescale`: gdal_translate from the .vrt to a .tif of the same
   * stem, cropped when bounds are given, typed by the output bit depth and
   * scaled from [black point, white point] to the output range. `dtype` is
   * what the .vrt's header reports; `asWritten` picks how a scale point
   * given as None is passed on (see ScaleArg).
   */
  method CropAndRescale(vrtfile: string, bounds: seq<real>, pixelRanges: map<string, (int, int)>, dtype: string,
                        whitePoint: Arg, blackPoint: Arg, bitDepth: Option<int>, asWritten: bool, show: real -> string)
    returns (r: Result<Job>)
    ensures CropOptions(bounds, show).Err? ==> r == Err(IndexError)
    ensures CropOptions(bounds, show).Ok? && dtype !in pixelRanges ==> r == Err(ValueError)
    ensures CropOptions(bounds, show).Ok? && dtype in pixelRanges && bitDepth !in {Some(8), Some(16)} ==> r == Err(ValueError)
    ensures r.Ok? <==>
      CropOptions(bounds, show).Ok? && dtype in pixelRanges && bitDepth in {Some(8), Some(16)}
      && (if bitDepth == Some(8) then "uint8" else "uint16") in pixelRanges
    ensures r.Ok? ==>
      var range := pixelRanges[dtype];
      var out := pixelRanges[if bitDepth == Some(8) then "uint8" else "uint16"];
      r.value.outpath == Before(vrtfile, ".vrt") + ".tif" &&
      r.value.commands ==
        ["gdal_translate", vrtfile, r.value.outpath, "-co", "COMPRESS=LZW", "-colorinterp", "red,green,blue"]
        + CropOptions(bounds, show).value
        + ["-ot", if bitDepth == Some(8) then "Byte" else "UInt16"]
        + ["-scale", ScaleArg(blackPoint, Min(range.0, range.1), asWritten),
           ScaleArg(whitePoint, Max(range.0, range.1), asWritten), IntToString(out.0), IntToString(out.1)]
  {
    var tiffile := Before(vrtfile, ".vrt") + ".tif";
    var commands := ["gdal_translate", vrtfile, tiffile, "-co", "COMPRESS=LZW", "-colorinterp", "red,green,blue"];
    var crop := CropOptions(bounds, show);
    if crop.Err? {
      return Err(crop.error);
    }
    commands := commands + crop.value;
    if dtype !in pixelRanges {
      return Err(ValueError);
    }
    var inputRange := pixelRanges[dtype];
    var wp := ScaleArg(whitePoint, Max(inputRange.0, inputRange.1), asWritten);
    var bp := ScaleArg(blackPoint, Min(inputRange.0, inputRange.1), asWritten);
    if bitDepth == Some(8) {
      commands := commands + ["-ot", "Byte"];
    } else if bitDepth == Some(16) {
      commands := commands + ["-ot", "UInt16"];
    } else {
      return Err(ValueError);
    }
    var key := if bitDepth == Some(8) then "uint8" else "uint16";
    if key !in pixelRanges {
      // iterating the None that pixel_ranges.get returns
      return Err(TypeError);
    }
    var out := pixelRanges[key];
    commands := commands + ["-scale", bp, wp, IntToString(out.0), IntToString(out.1)];
    r := Ok(Job(tiffile, commands));
  }
}
