/**
 * The older Landsat reprocessing script: band files named `<prefix>band<n>.tif`,
 * grouped by prefix, checked for completeness and cropped and rescaled with a
 * fixed black point of 0.
 */
module ReprocessLandsat {
  import opened Wrappers
  import opened Py
  import opened Jobs
  import opened ReduceLandsat

  /** `prefix + 'band{}.tif'.format(b)`. */
  function BandFile(prefix: string, b: string): string {
    prefix + "band" + b + ".tif"
  }

  /**
   * `filter_bands`: the band files for `bandlist`, in bandlist order, raising
   * FileNotFoundError as soon as one of them is not among `files`.
   */
  function FilterBands(prefix: string, files: seq<string>, bandlist: seq<string>): (r: Result<seq<string>>)
    ensures r.Err? <==> exists k :: 0 <= k < |bandlist| && BandFile(prefix, bandlist[k]) !in files
    ensures r.Err? ==> r.error == FileNotFoundError
    ensures r.Ok? ==> |r.value| == |bandlist| && forall k :: 0 <= k < |bandlist| ==> r.value[k] == BandFile(prefix, bandlist[k])
    ensures r.Ok? ==> forall f :: f in r.value ==> f in files
  {
    if forall k :: 0 <= k < |bandlist| ==> BandFile(prefix, bandlist[k]) in files
    then Ok(seq(|bandlist|, k requires 0 <= k < |bandlist| => BandFile(prefix, bandlist[k])))
    else Err(FileNotFoundError)
  }

  /** The files whose name contains `p`, in order. */
  function WithPrefix(files: seq<string>, p: string): (r: seq<string>)
    ensures forall f :: f in r <==> f in files && Contains(f, p)
  {
    if files == [] then []
    else (if Contains(files[0], p) then [files[0]] else []) + WithPrefix(files[1..], p)
  }

  /** Each band file names its own prefix, so narrowing the file list to the
      prefix's files first changes nothing about what filter_bands finds. */
  lemma FilterBandsOfGroup(files: seq<string>, p: string, bandlist: seq<string>)
    ensures FilterBands(p, WithPrefix(files, p), bandlist) == FilterBands(p, files, bandlist)
  {
    forall k | 0 <= k < |bandlist|
      ensures BandFile(p, bandlist[k]) in WithPrefix(files, p) <==> BandFile(p, bandlist[k]) in files
    {
      var f := BandFile(p, bandlist[k]);
      assert f == p + ("band" + bandlist[k] + ".tif");
      assert f[0..|p|] == p;
      ContainsAt(f, p, 0);
    }
  }

  function Prefixes(filenames: seq<string>): set<string> {
    set f | f in filenames :: Before(f, "band")
  }

  /**
   * `partition`: prefixes are the text before 'band'; each prefix's files are
   * filtered with filter_bands, and one missing band fails the whole call.
   */
  function Partition(filenames: seq<string>, bandlist: seq<string>): (r: Result<map<string, seq<string>>>)
    ensures r.Ok? <==> forall p :: p in Prefixes(filenames) ==> FilterBands(p, filenames, bandlist).Ok?
    ensures r.Err? ==> r.error == FileNotFoundError
    ensures r.Ok? ==> r.value.Keys == Prefixes(filenames)
    ensures r.Ok? ==> forall p :: p in r.value ==> r.value[p] == FilterBands(p, filenames, bandlist).value
  {
    var prefixes := Prefixes(filenames);
    if forall p :: p in prefixes ==> FilterBands(p, WithPrefix(filenames, p), bandlist).Ok? then
      assert forall p :: p in prefixes ==> FilterBands(p, filenames, bandlist).Ok? by {
        forall p | p in prefixes ensures FilterBands(p, filenames, bandlist).Ok? {
          FilterBandsOfGroup(filenames, p, bandlist);
        }
      }
      assert forall p :: p in prefixes ==> FilterBands(p, WithPrefix(filenames, p), bandlist) == FilterBands(p, filenames, bandlist) by {
        forall p | p in prefixes { FilterBandsOfGroup(filenames, p, bandlist); }
      }
      Ok(map p | p in prefixes :: FilterBands(p, WithPrefix(filenames, p), bandlist).value)
    else
      var p :| p in prefixes && !FilterBands(p, WithPrefix(filenames, p), bandlist).Ok?;
      FilterBandsOfGroup(filenames, p, bandlist);
      Err(FileNotFoundError)
  }

  /** Every group holds exactly one file per requested band, and each is one
      of the input files. */
  lemma PartitionGroupsComplete(filenames: seq<string>, bandlist: seq<string>, p: string)
    requires Partition(filenames, bandlist).Ok? && p in Partition(filenames, bandlist).value
    ensures var g := Partition(filenames, bandlist).value[p];
      |g| == |bandlist| && forall k :: 0 <= k < |g| ==> g[k] == BandFile(p, bandlist[k]) && g[k] in filenames
  {
  }

  /** The output type and scaling for a valid bit depth: from 0..white point
      onto the full range of the output type. */
  function ScaleOptions(bitDepth: Arg, whitePoint: Arg): (r: seq<string>)
    requires bitDepth in {Int(8), Int(16)} && !whitePoint.Absent?
    ensures |r| == 7 && r[..3] == ["-ot", r[1], "-scale"] && r[3] == "0" && r[4] == ArgString(whitePoint) && r[5] == "0"
    ensures bitDepth == Int(8) ==> r[1] == "Byte" && r[6] == "255"
    ensures bitDepth == Int(16) ==> r[1] == "UInt16" && r[6] == "65535"
  {
    if bitDepth == Int(8) then ["-ot", "Byte", "-scale", "0", ArgString(whitePoint), "0", "255"]
    else ["-ot", "UInt16", "-scale", "0", ArgString(whitePoint), "0", "65535"]
  }

  /**
   * `crop_and_rescale`: bit depth 8 gives Byte scaled to 0..255, 16 gives
   * UInt16 scaled to 0..65535, both from 0..white point; anything else is a
   * ValueError. A missing bit_depth or white_point keyword is a KeyError.
   */
  method CropAndRescale(vrtfile: string, bounds: seq<real>, bitDepth: Arg, whitePoint: Arg, show: real -> string)
    returns (r: Result<Job>)
    ensures CropOptions(bounds, show).Err? ==> r == Err(IndexError)
    ensures CropOptions(bounds, show).Ok? && bitDepth.Absent? ==> r == Err(KeyError)
    ensures CropOptions(bounds, show).Ok? && !bitDepth.Absent? && bitDepth !in {Int(8), Int(16)} ==> r == Err(ValueError)
    ensures CropOptions(bounds, show).Ok? && bitDepth in {Int(8), Int(16)} && whitePoint.Absent? ==> r == Err(KeyError)
    ensures r.Ok? <==> CropOptions(bounds, show).Ok? && bitDepth in {Int(8), Int(16)} && !whitePoint.Absent?
    ensures r.Ok? ==>
      r.value.outpath == Before(vrtfile, ".vrt") + ".tif" &&
      r.value.commands ==
        ["gdal_translate", vrtfile, r.value.outpath, "-co", "COMPRESS=LZW", "-colorinterp", "red,green,blue"]
        + CropOptions(bounds, show).value
        + ScaleOptions(bitDepth, whitePoint)
  {
    var tiffile := Before(vrtfile, ".vrt") + ".tif";
    var commands := ["gdal_translate", vrtfile, tiffile, "-co", "COMPRESS=LZW", "-colorinterp", "red,green,blue"];
    var crop := CropOptions(bounds, show);
    if crop.Err? {
      return Err(crop.error);
    }
    commands := commands + crop.value;
    if bitDepth.Absent? {
      return Err(KeyError);
    } else if bitDepth == Int(8) {
      if whitePoint.Absent? {
        return Err(KeyError);
      }
      commands := commands + ["-ot", "Byte", "-scale", "0", ArgString(whitePoint), "0", "255"];
    } else if bitDepth == Int(16) {
      if whitePoint.Absent? {
        return Err(KeyError);
      }
      commands := commands + ["-ot", "UInt16", "-scale", "0", ArgString(whitePoint), "0", "65535"];
    } else {
      return Err(ValueError);
    }
    r := Ok(Job(tiffile, commands));
  }
}
