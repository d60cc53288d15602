/**
 * Mosaicking raw image tiles: a virtual mosaic of the tiles, one gdal_translate
 * that picks bands and crops, an optional color-corrected copy, and an
 * optional change of bit depth for every output.
 */
module ReduceTiles {
  import opened Wrappers
  import opened Py
  import opened Jobs
  import ReduceLandsat

  predicate AllowedBitDepth(b: int) { b == 8 || b == 16 }

  /** `np.iinfo(dtype).bits` for integer raster dtypes; any other dtype makes
      numpy raise ValueError. */
  function DtypeBits(dtype: string): (r: Option<int>)
    ensures r.Some? ==> r.value in {8, 16, 32, 64}
    ensures dtype in {"uint8", "uint16"} ==> r.Some? && r.value == (if dtype == "uint8" then 8 else 16)
  {
    match dtype
    case "uint8" => Some(8)
    case "int8" => Some(8)
    case "uint16" => Some(16)
    case "int16" => Some(16)
    case "uint32" => Some(32)
    case "int32" => Some(32)
    case "uint64" => Some(64)
    case "int64" => Some(64)
    case _ => None
  }

  predicate AllSame(dtypes: seq<string>) {
    forall i :: 0 <= i < |dtypes| ==> dtypes[i] == dtypes[0]
  }

  /**
   * `get_bit_depth` over the dtypes the input files report: the bits of the
   * first dtype, provided every dtype is the same and that width is 8 or 16.
   * No files at all is a StopIteration.
   */
  function GetBitDepth(dtypes: seq<string>): (r: Result<int>)
    ensures dtypes == [] <==> r == Err(StopIteration)
    ensures r.Ok? <==> dtypes != [] && AllSame(dtypes) && DtypeBits(dtypes[0]).Some? && AllowedBitDepth(DtypeBits(dtypes[0]).value)
    ensures r.Err? && dtypes != [] ==> r.error == ValueError
    ensures r.Ok? ==> AllowedBitDepth(r.value) && forall i :: 0 <= i < |dtypes| ==> DtypeBits(dtypes[i]) == Some(r.value)
  {
    if dtypes == [] then Err(StopIteration)
    else match DtypeBits(dtypes[0])
      case None => Err(ValueError)
      case Some(bits) => if AllSame(dtypes) && AllowedBitDepth(bits) then Ok(bits) else Err(ValueError)
  }

  /** The bit depth does not depend on the order of the files. */
  lemma GetBitDepthOrderFree(dtypes: seq<string>, i: nat)
    requires i < |dtypes|
    ensures var rotated := dtypes[i..] + dtypes[..i];
      GetBitDepth(rotated) == GetBitDepth(dtypes)
  {
    var rotated := dtypes[i..] + dtypes[..i];
    assert rotated[0] == dtypes[i];
    assert multiset(rotated) == multiset(dtypes) by {
      assert dtypes == dtypes[..i] + dtypes[i..];
    }
    if AllSame(dtypes) {
      forall k | 0 <= k < |rotated| ensures rotated[k] == rotated[0] {
        assert rotated[k] in multiset(dtypes);
      }
    }
    if AllSame(rotated) {
      assert dtypes[0] in multiset(rotated);
      forall k | 0 <= k < |dtypes| ensures dtypes[k] == dtypes[0] {
        assert dtypes[k] in multiset(rotated);
      }
    }
  }

  /** `vrt_merge`: a virtual mosaic named after the output's .tif stem. */
  function VrtMerge(paths: seq<string>, outpath: string, srcnodata: int): (j: Job)
    ensures j.outpath == Before(outpath, ".tif") + ".vrt"
    ensures j.commands == ["gdalbuildvrt", "-srcnodata", IntToString(srcnodata), j.outpath] + paths
  {
    var vrtfile := Before(outpath, ".tif") + ".vrt";
    Job(vrtfile, ["gdalbuildvrt", "-srcnodata", IntToString(srcnodata), vrtfile] + paths)
  }

  /** The flattened ('-b', str(b)) pairs, one per band, in order. */
  function BandArgs(bandlist: seq<int>): (r: seq<string>)
    ensures |r| == 2 * |bandlist|
    ensures forall k :: 0 <= k < |bandlist| ==> r[2 * k] == "-b" && r[2 * k + 1] == IntToString(bandlist[k])
  {
    if bandlist == [] then [] else ["-b", IntToString(bandlist[0])] + BandArgs(bandlist[1..])
  }

  /** The band selection `resolve` adds: bands in order, and the RGB color
      interpretation exactly when three bands are given. */
  function BandOptions(bandlist: seq<int>): (r: seq<string>)
    ensures |r| == 2 * |bandlist| + (if |bandlist| == 3 then 2 else 0)
    ensures r[..2 * |bandlist|] == BandArgs(bandlist)
    ensures |bandlist| == 3 ==> r[2 * |bandlist|..] == ["-colorinterp", "red,green,blue"]
  {
    BandArgs(bandlist) + (if |bandlist| == 3 then ["-colorinterp", "red,green,blue"] else [])
  }

  /** The gdal_translate job of `resolve`, given the crop options it adds. */
  function ResolveJob(vrtfile: string, bandlist: seq<int>, crop: seq<string>): Job {
    var tiffile := Before(vrtfile, ".vrt") + ".tif";
    Job(tiffile, ["gdal_translate", vrtfile, tiffile, "-co", "COMPRESS=LZW"] + BandOptions(bandlist) + crop)
  }

  /** `resolve` as written: a geojson (here its bounds; an empty list for
      none) sends it to `reduce_landsat.get_bounds`, which that module does
      not define. */
  method ResolveAsWritten(vrtfile: string, bandlist: seq<int>, bounds: seq<real>) returns (r: Result<Job>)
    ensures bounds != [] <==> r == Err(AttributeError)
    ensures bounds == [] <==> r.Ok?
    ensures r.Ok? ==>
      r.value.outpath == Before(vrtfile, ".vrt") + ".tif" &&
      r.value.commands == ["gdal_translate", vrtfile, r.value.outpath, "-co", "COMPRESS=LZW"] + BandOptions(bandlist)
    ensures r.Ok? ==> r.value == ResolveJob(vrtfile, bandlist, [])
  {
    var tiffile := Before(vrtfile, ".vrt") + ".tif";
    var commands := ["gdal_translate", vrtfile, tiffile, "-co", "COMPRESS=LZW"];
    commands := commands + BandOptions(bandlist);
    if bounds != [] {
      return Err(AttributeError);
    }
    r := Ok(Job(tiffile, commands));
  }

  /**
   * `resolve` with the crop it evidently intends: the bounds of the area of
   * interest (an empty list for no crop) become a -projwin in gdal's corner
   * order, as in reduce_landsat.
   */
  method Resolve(vrtfile: string, bandlist: seq<int>, bounds: seq<real>, show: real -> string) returns (r: Result<Job>)
    ensures r.Err? <==> ReduceLandsat.CropOptions(bounds, show).Err?
    ensures r.Err? ==> r.error == IndexError
    ensures r.Ok? ==>
      r.value.outpath == Before(vrtfile, ".vrt") + ".tif" &&
      r.value.commands == ["gdal_translate", vrtfile, r.value.outpath, "-co", "COMPRESS=LZW"]
                          + BandOptions(bandlist) + ReduceLandsat.CropOptions(bounds, show).value
    ensures r.Ok? ==> r.value == ResolveJob(vrtfile, bandlist, ReduceLandsat.CropOptions(bounds, show).value)
  {
    var tiffile := Before(vrtfile, ".vrt") + ".tif";
    var commands := ["gdal_translate", vrtfile, tiffile, "-co", "COMPRESS=LZW"];
    commands := commands + BandOptions(bandlist);
    var crop := ReduceLandsat.CropOptions(bounds, show);
    if crop.Err? {
      return Err(crop.error);
    }
    commands := commands + crop.value;
    r := Ok(Job(tiffile, commands));
  }

  /** Merging to `stem.tif` then resolving writes `stem.tif` again. */
  lemma MergeResolveName(stem: string, paths: seq<string>, srcnodata: int)
    requires !Contains(stem, ".tif") && !Contains(stem, ".vrt")
    ensures var vrt := VrtMerge(paths, stem + ".tif", srcnodata).outpath;
      vrt == stem + ".vrt" && Before(vrt, ".vrt") + ".tif" == stem + ".tif"
  {
    HeadUniqueNames();
    BeforeRoundTrip(stem, ".tif", []);
    BeforeRoundTrip(stem, ".vrt", []);
    assert stem + ".tif" + [] == stem + ".tif";
    assert stem + ".vrt" + [] == stem + ".vrt";
  }

  function Pow2(n: nat): (r: nat)
    ensures r >= 1
  {
    if n == 0 then 1 else 2 * Pow2(n - 1)
  }

  /** The largest value of the gdal output types used here. */
  function TypeMax(imgType: string): int {
    if imgType == "UInt16" then 65535 else if imgType == "Byte" then 255 else 0
  }

  /** The gdal_translate job of `change_bit_depth` for allowed depths. */
  function DepthChangeJob(path: string, inputBitDepth: nat, outputBitDepth: nat): Job {
    Job(path, ["gdal_translate", path + "-tmp", path, "-ot", (if outputBitDepth == 16 then "UInt16" else "Byte"), "-scale",
               "0", IntToString(Pow2(inputBitDepth) - 1), "0", IntToString(Pow2(outputBitDepth) - 1)])
  }

  /**
   * `change_bit_depth`: both depths must be 8 or 16 (AssertionError otherwise);
   * the image is moved aside to `path-tmp` and translated back to `path`,
   * scaling the input's full range onto the output's.
   */
  method ChangeBitDepth(path: string, inputBitDepth: int, outputBitDepth: int) returns (r: Result<Job>)
    ensures r.Err? <==> !AllowedBitDepth(inputBitDepth) || !AllowedBitDepth(outputBitDepth)
    ensures r.Err? ==> r.error == AssertionError
    ensures r.Ok? ==>
      r.value.outpath == path && |r.value.commands| == 10 &&
      r.value.commands[..6] == ["gdal_translate", path + "-tmp", path, "-ot", (if outputBitDepth == 16 then "UInt16" else "Byte"), "-scale"] &&
      r.value.commands[6..] == ["0", IntToString(Pow2(inputBitDepth) - 1), "0", IntToString(Pow2(outputBitDepth) - 1)]
    ensures r.Ok? ==> IsDepthChange(r.value, path)
    ensures r.Ok? ==> r.value == DepthChangeJob(path, inputBitDepth, outputBitDepth)
    ensures r.Ok? ==> TypeMax(r.value.commands[4]) == Pow2(outputBitDepth) - 1
  {
    if !AllowedBitDepth(inputBitDepth) || !AllowedBitDepth(outputBitDepth) {
      return Err(AssertionError);
    }
    var tmpFile := path + "-tmp";
    var imgType := if outputBitDepth == 16 then "UInt16" else "Byte";
    PowersOfDepths();
    var commands := ["gdal_translate", tmpFile, path, "-ot", imgType, "-scale", "0", IntToString(Pow2(inputBitDepth) - 1),
                     "0", IntToString(Pow2(outputBitDepth) - 1)];
    r := Ok(Job(path, commands));
  }

  lemma PowersOfDepths()
    ensures Pow2(8) == 256 && Pow2(16) == 65536
  {
    assert Pow2(4) == 16;
    assert Pow2(8) == 16 * Pow2(4) by { Pow2Add(4, 4); }
    assert Pow2(16) == Pow2(8) * Pow2(8) by { Pow2Add(8, 8); }
  }

  lemma {:induction false} Pow2Add(a: nat, b: nat)
    ensures Pow2(a + b) == Pow2(a) * Pow2(b)
    decreases a
  {
    if a > 0 {
      Pow2Add(a - 1, b);
    }
  }

  /** A job that rewrites `path` in place through `path-tmp`. */
  predicate IsDepthChange(j: Job, path: string) {
    j.outpath == path && |j.commands| == 10 && j.commands[1] == path + "-tmp" && j.commands[2] == path
  }

  /** The loop of `build_image` that changes the depth of every output. */
  method DepthChanges(outpaths: seq<string>, inputBitDepth: int, outputBitDepth: int) returns (jobs: seq<Job>)
    requires AllowedBitDepth(inputBitDepth) && AllowedBitDepth(outputBitDepth)
    ensures |jobs| == |outpaths|
    ensures forall k :: 0 <= k < |jobs| ==> IsDepthChange(jobs[k], outpaths[k])
    ensures forall k :: 0 <= k < |jobs| ==> jobs[k] == DepthChangeJob(outpaths[k], inputBitDepth, outputBitDepth)
  {
    jobs := [];
    for i := 0 to |outpaths|
      invariant |jobs| == i
      invariant forall k :: 0 <= k < i ==> IsDepthChange(jobs[k], outpaths[k])
      invariant forall k :: 0 <= k < i ==> jobs[k] == DepthChangeJob(outpaths[k], inputBitDepth, outputBitDepth)
    {
      var change := ChangeBitDepth(outpaths[i], inputBitDepth, outputBitDepth);
      if change.Err? {
        assert false;
      }
      jobs := jobs + [change.value];
    }
  }

  /** What `build_image` returns and the commands it runs, in order. */
  datatype Built = Built(outpaths: seq<string>, jobs: seq<Job>)

  /**
   * `build_image`: validate the input and requested depths, mosaic, resolve,
   * optionally color-correct the result (`colorCorrect(style, tif)` stands
   * for `color.ColorCorrect(style=...)`), then change the depth of every
   * output when a depth is requested that differs from the input's. A
   * requested depth of 0 means none was given; `asWritten` picks the
   * resolve step as written (any crop fails) or as intended.
   */
  method BuildImage(dtypes: seq<string>, paths: seq<string>, outpath: string, bitDepth: int, bandlist: seq<int>,
                    bounds: seq<real>, show: real -> string, colorStyle: string,
                    colorCorrect: (string, string) -> string, asWritten: bool)
    returns (r: Result<Built>)
    ensures GetBitDepth(dtypes).Err? ==> r == Err(GetBitDepth(dtypes).error)
    ensures GetBitDepth(dtypes).Ok? && bitDepth != 0 && !AllowedBitDepth(bitDepth) ==> r == Err(ValueError)
    ensures GetBitDepth(dtypes).Ok? && (bitDepth == 0 || AllowedBitDepth(bitDepth)) && asWritten && bounds != [] ==>
      r == Err(AttributeError)
    ensures r.Ok? <==>
      GetBitDepth(dtypes).Ok? && (bitDepth == 0 || AllowedBitDepth(bitDepth)) &&
      ReduceLandsat.CropOptions(bounds, show).Ok? && (asWritten ==> bounds == [])
    ensures r.Ok? ==>
      var tif := Before(Before(outpath, ".tif") + ".vrt", ".vrt") + ".tif";
      var convert := bitDepth != 0 && bitDepth != GetBitDepth(dtypes).value;
      r.value.outpaths == [tif] + (if colorStyle != [] then [colorCorrect(colorStyle, tif)] else [])
      && |r.value.jobs| == 2 + (if convert then |r.value.outpaths| else 0)
      && r.value.jobs[0] == VrtMerge(paths, outpath, 0)
      && r.value.jobs[1].outpath == tif
      && forall k :: 2 <= k < |r.value.jobs| ==> IsDepthChange(r.value.jobs[k], r.value.outpaths[k - 2])
    ensures r.Ok? ==>
      r.value.jobs[1] == ResolveJob(VrtMerge(paths, outpath, 0).outpath, bandlist, ReduceLandsat.CropOptions(bounds, show).value)
      && forall k :: 2 <= k < |r.value.jobs| ==>
           r.value.jobs[k] == DepthChangeJob(r.value.outpaths[k - 2], GetBitDepth(dtypes).value, bitDepth)
  {
    var input := GetBitDepth(dtypes);
    if input.Err? {
      return Err(input.error);
    }
    var inputBitDepth := input.value;
    if bitDepth != 0 && !AllowedBitDepth(bitDepth) {
      return Err(ValueError);
    }
    var merge := VrtMerge(paths, outpath, 0);
    var resolved;
    if asWritten {
      resolved := ResolveAsWritten(merge.outpath, bandlist, bounds);
    } else {
      resolved := Resolve(merge.outpath, bandlist, bounds, show);
    }
    if resolved.Err? {
      return Err(resolved.error);
    }
    var tiffile := resolved.value.outpath;
    assert tiffile == Before(Before(outpath, ".tif") + ".vrt", ".vrt") + ".tif";
    var outpaths := [tiffile];
    if colorStyle != [] {
      outpaths := outpaths + [colorCorrect(colorStyle, tiffile)];
    }
    var jobs := [merge, resolved.value];
    if bitDepth != 0 && bitDepth != inputBitDepth {
      var changes := DepthChanges(outpaths, inputBitDepth, bitDepth);
      jobs := jobs + changes;
    }
    r := Ok(Built(outpaths, jobs));
  }

  /**
   * The crop step as written fails on any area of interest, while the
   * intended one crops to its bounds.
   */
  method CropFindingWitness(vrtfile: string, bandlist: seq<int>, show: real -> string)
    returns (asWritten: Result<Job>, intended: Result<Job>)
    ensures asWritten == Err(AttributeError)
    ensures intended.Ok? && |intended.value.commands| >= 7
    ensures intended.Ok? ==> var c := intended.value.commands;
      |c| >= 7 && c[|c| - 7..] == ["-projwin_srs", "EPSG:4326", "-projwin", show(-122.5), show(37.9), show(-122.3), show(37.7)]
  {
    asWritten := ResolveAsWritten(vrtfile, bandlist, [-122.5, 37.7, -122.3, 37.9]);
    intended := Resolve(vrtfile, bandlist, [-122.5, 37.7, -122.3, 37.9], show);
  }
}
