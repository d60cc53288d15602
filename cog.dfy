/**
 * Helpers that merge GeoTiffs and turn them into Cloud-Optimized GeoTiffs:
 * agreeing on a nodata value, naming the merged file after the longest
 * text the inputs share, searching histogram bins, and building the
 * gdalwarp, rio and gdal_translate argument lists.
 */
module Cog {
  import opened Wrappers
  import opened Json
  import opened Py
  import opened Difflib
  import opened Jobs

  // ----- _get_nodata ------------------------------------------------------

  /**
   * `_get_nodata`, given the nodata value each file's header reports
   * (JNull when it reports none): the common value, ValueError when two
   * disagree, IndexError when there are no files.
   */
  function GetNodata(nodatas: seq<Json>): (r: Result<Json>)
    ensures |nodatas| == 0 <==> r == Err(IndexError)
    ensures r.Ok? ==> forall i :: 0 <= i < |nodatas| ==> nodatas[i] == r.value
    ensures r.Err? && |nodatas| > 0 ==>
      r.error == ValueError && exists i, j :: 0 <= i < j < |nodatas| && nodatas[i] != nodatas[j]
  {
    if |nodatas| == 0 then Err(IndexError)
    else if forall i :: 0 <= i < |nodatas| ==> nodatas[i] == nodatas[0] then Ok(nodatas[0])
    else Err(ValueError)
  }

  /** Agreement does not depend on the order the files are listed in. */
  lemma GetNodataOrderFree(a: seq<Json>, b: seq<Json>)
    requires multiset(a) == multiset(b)
    ensures GetNodata(a) == GetNodata(b)
  {
    if |a| > 0 {
      assert |b| == |multiset(b)| > 0;
      if GetNodata(a).Ok? {
        AllEqualTransfer(a, b);
      } else if GetNodata(b).Ok? {
        AllEqualTransfer(b, a);
      }
    }
  }

  lemma AllEqualTransfer(a: seq<Json>, b: seq<Json>)
    requires multiset(a) == multiset(b) && |a| > 0
    requires forall i :: 0 <= i < |a| ==> a[i] == a[0]
    ensures |b| > 0 && b[0] == a[0] && forall i :: 0 <= i < |b| ==> b[i] == a[0]
  {
    assert |b| == |multiset(b)| == |a|;
    forall i | 0 <= i < |b|
      ensures b[i] == a[0]
    {
      assert b[i] in multiset(a);
      var k :| 0 <= k < |a| && a[k] == b[i];
    }
  }

  // ----- _get_lcss --------------------------------------------------------

  /** One step of `_get_lcss` as the code writes it: `path_a[match.a:match.size]`. */
  function LcssStepAsWritten(a: string, b: string): (r: string)
    ensures Contains(a, r) && Contains(b, r)
  {
    var m := FindLongestMatch(a, b);
    var r := Slice(a, m.a, m.size);
    assert m.a + m.size <= |a| && a[m.a..m.a + m.size] == b[m.b..m.b + m.size];
    if m.size <= m.a then
      ContainsAt(a, [], 0);
      ContainsAt(b, [], 0);
      r
    else
      assert r == a[m.a..m.size] == b[m.b..m.b + (m.size - m.a)];
      ContainsAt(a, r, m.a);
      ContainsAt(b, r, m.b);
      r
  }

  /** One step of `_get_lcss` as intended: `path_a[match.a:match.a+match.size]`,
      the longest text `a` and `b` share. */
  function LcssStep(a: string, b: string): (r: string)
    ensures Contains(a, r) && Contains(b, r)
    ensures forall t :: Contains(a, t) && Contains(b, t) ==> |t| <= |r|
  {
    var m := FindLongestMatch(a, b);
    var r := a[m.a..m.a + m.size];
    ContainsAt(a, r, m.a);
    ContainsAt(b, r, m.b);
    LongestCommon(a, b, m);
    r
  }

  lemma LongestCommon(a: string, b: string, m: Match)
    requires IsLongestMatch(a, b, m)
    ensures forall t :: Contains(a, t) && Contains(b, t) ==> |t| <= m.size
  {
    forall t | Contains(a, t) && Contains(b, t)
      ensures |t| <= m.size
    {
      var i := ContainsWitness(a, t);
      var j := ContainsWitness(b, t);
      assert IsCommon(a, b, i, j, |t|);
    }
  }

  /** The text left after folding the step over the remaining paths. */
  function LcssFold(pathA: string, rest: seq<string>, asWritten: bool): string
    decreases |rest|
  {
    if rest == [] then pathA
    else LcssFold(if asWritten then LcssStepAsWritten(pathA, rest[0]) else LcssStep(pathA, rest[0]), rest[1..], asWritten)
  }

  /** What `_get_lcss` returns: StopIteration for no paths, else the fold. */
  function Lcss(paths: seq<string>, asWritten: bool): Result<string> {
    if paths == [] then Err(StopIteration) else Ok(LcssFold(paths[0], paths[1..], asWritten))
  }

  /** Whichever step is used, the folded text occurs in the starting text and
      in every remaining path. */
  lemma {:induction false} LcssFoldCommon(pathA: string, rest: seq<string>, asWritten: bool)
    ensures Contains(pathA, LcssFold(pathA, rest, asWritten))
    ensures forall p :: p in rest ==> Contains(p, LcssFold(pathA, rest, asWritten))
    decreases |rest|
  {
    if rest == [] {
      ContainsAt(pathA, pathA, 0);
    } else {
      var next := if asWritten then LcssStepAsWritten(pathA, rest[0]) else LcssStep(pathA, rest[0]);
      var r := LcssFold(pathA, rest, asWritten);
      LcssFoldCommon(next, rest[1..], asWritten);
      ContainsTrans(pathA, next, r);
      ContainsTrans(rest[0], next, r);
    }
  }

  /** The result is a piece of every path; one path comes back unchanged. */
  lemma LcssCommon(paths: seq<string>, asWritten: bool)
    ensures paths == [] <==> Lcss(paths, asWritten) == Err(StopIteration)
    ensures |paths| == 1 ==> Lcss(paths, asWritten) == Ok(paths[0])
    ensures Lcss(paths, asWritten).Ok? ==> forall p :: p in paths ==> Contains(p, Lcss(paths, asWritten).value)
  {
    if paths != [] {
      LcssFoldCommon(paths[0], paths[1..], asWritten);
      assert paths == [paths[0]] + paths[1..];
    }
  }

  /** For two paths the intended step gives the longest text they share. */
  lemma LcssTwoIsLongest(a: string, b: string)
    ensures Lcss([a, b], false) == Ok(LcssStep(a, b))
    ensures forall t :: Contains(a, t) && Contains(b, t) ==> |t| <= |Lcss([a, b], false).value|
  {
    assert [a, b][1..] == [b];
    assert [b][1..] == [];
    assert LcssFold(a, [b], false) == LcssFold(LcssStep(a, b), [], false);
  }

  /** What the slice as written loses: for "xab" and "ab" the longest shared
      text is "ab", found at x[1:3], but x[1:2] keeps only "a". */
  lemma LcssAsWrittenTruncates(x: string, y: string)
    requires x == "xab" && y == "ab"
    ensures Lcss([x, y], true) == Ok("a")
    ensures Lcss([x, y], false) == Ok("ab")
  {
    var m := FindLongestMatch(x, y);
    MatchOfExample(x, y, m);
    assert [x, y][1..] == [y];
    assert [y][1..] == [];
    assert LcssFold(x, [y], true) == LcssFold(LcssStepAsWritten(x, y), [], true);
    assert LcssFold(x, [y], false) == LcssFold(LcssStep(x, y), [], false);
    assert Slice(x, 1, 2) == "a";
    assert x[1..3] == "ab";
  }

  lemma MatchOfExample(x: string, y: string, m: Match)
    requires x == "xab" && y == "ab" && IsLongestMatch(x, y, m)
    ensures m == Match(1, 0, 2)
  {
    assert IsCommon(x, y, 1, 0, 2) by {
      assert x[1..3] == "ab" == y[0..2];
    }
    assert m.size == 2 && m.b == 0 && m.a <= 1;
    assert x[m.a..m.a + 2] == y[0..2];
    assert x[0..2][0] != y[0..2][0];
    assert m.a != 0;
  }

  /** `_get_lcss` as the code writes it. */
  method GetLcssAsWritten(paths: seq<string>) returns (r: Result<string>)
    ensures r == Lcss(paths, true)
  {
    if paths == [] {
      return Err(StopIteration);
    }
    var pathA := paths[0];
    var n := 1;
    while n < |paths|
      invariant 1 <= n <= |paths|
      invariant LcssFold(pathA, paths[n..], true) == LcssFold(paths[0], paths[1..], true)
    {
      assert paths[n..][1..] == paths[n + 1..];
      pathA := LcssStepAsWritten(pathA, paths[n]);
      n := n + 1;
    }
    r := Ok(pathA);
  }

  /** `_get_lcss` with the intended slice: the longest text shared so far. */
  method GetLcss(paths: seq<string>) returns (r: Result<string>)
    ensures r == Lcss(paths, false)
  {
    if paths == [] {
      return Err(StopIteration);
    }
    var pathA := paths[0];
    var n := 1;
    while n < |paths|
      invariant 1 <= n <= |paths|
      invariant LcssFold(pathA, paths[n..], false) == LcssFold(paths[0], paths[1..], false)
    {
      assert paths[n..][1..] == paths[n + 1..];
      pathA := LcssStep(pathA, paths[n]);
      n := n + 1;
    }
    r := Ok(pathA);
  }

  // ----- _find_bin --------------------------------------------------------

  function Sum(s: seq<nat>): nat {
    if s == [] then 0 else Sum(s[..|s| - 1]) + s[|s| - 1]
  }

  /** The cumulative percentage at bin `i` is at least `p`. With an empty
      histogram the percentages are NaN and no comparison holds. */
  predicate Reached(counts: seq<nat>, i: nat, p: real)
    requires i < |counts|
  {
    Sum(counts) > 0 && 100.0 * Sum(counts[..i + 1]) as real >= p * Sum(counts) as real
  }

  /** The first bin at or after `i` whose cumulative percentage reaches `p`. */
  function FirstReached(counts: seq<nat>, p: real, i: nat): (r: Option<nat>)
    ensures r.Some? ==> i <= r.value < |counts| && Reached(counts, r.value, p)
    ensures r.Some? ==> forall j :: i <= j < r.value ==> !Reached(counts, j, p)
    ensures r.None? ==> forall j :: i <= j < |counts| ==> !Reached(counts, j, p)
    decreases |counts| - i
  {
    if i >= |counts| then None
    else if Reached(counts, i, p) then Some(i)
    else FirstReached(counts, p, i + 1)
  }

  /**
   * `_find_bin`: the least bin whose cumulative percentage reaches each
   * percentile; IndexError when no bin does (`np.where(...)[0][0]` on an
   * empty result).
   */
  function FindBin(counts: seq<nat>, p0: real, p1: real): (r: Result<(nat, nat)>)
    ensures r.Err? ==> r.error == IndexError
    ensures r.Ok? <==> FirstReached(counts, p0, 0).Some? && FirstReached(counts, p1, 0).Some?
    ensures r.Ok? ==> r.value.0 == FirstReached(counts, p0, 0).value && r.value.1 == FirstReached(counts, p1, 0).value
  {
    match (FirstReached(counts, p0, 0), FirstReached(counts, p1, 0))
    case (Some(lo), Some(hi)) => Ok((lo, hi))
    case _ => Err(IndexError)
  }

  /** The bin `FindBin` picks is the least that reaches the percentile. */
  lemma FindBinLeast(counts: seq<nat>, p0: real, p1: real, j: nat)
    requires FindBin(counts, p0, p1).Ok? && j < |counts|
    ensures Reached(counts, j, p0) ==> FindBin(counts, p0, p1).value.0 <= j
    ensures Reached(counts, j, p1) ==> FindBin(counts, p0, p1).value.1 <= j
  {
  }

  /** A lower percentile never lands in a higher bin. */
  lemma FindBinOrdered(counts: seq<nat>, p0: real, p1: real)
    requires p0 <= p1 && FindBin(counts, p0, p1).Ok?
    ensures FindBin(counts, p0, p1).value.0 <= FindBin(counts, p0, p1).value.1
  {
    var hi := FindBin(counts, p0, p1).value.1;
    assert Reached(counts, hi, p1);
    ReachedMonotone(counts, hi, p0, p1);
  }

  /** A non-empty histogram reaches every percentile up to 100 in its last bin. */
  lemma FindBinDefined(counts: seq<nat>, p0: real, p1: real)
    requires Sum(counts) > 0 && p0 <= 100.0 && p1 <= 100.0
    ensures FindBin(counts, p0, p1).Ok?
  {
    var last := |counts| - 1;
    assert counts[..last + 1] == counts;
    LastBinReached(counts, p0);
    LastBinReached(counts, p1);
  }

  lemma LastBinReached(counts: seq<nat>, p: real)
    requires Sum(counts) > 0 && p <= 100.0
    ensures FirstReached(counts, p, 0).Some?
  {
    var last := |counts| - 1;
    assert counts[..last + 1] == counts;
    ScaleLe(p, 100.0, Sum(counts) as real);
    assert Reached(counts, last, p);
  }

  /** A bin that reaches a percentile reaches every lower one. */
  lemma ReachedMonotone(counts: seq<nat>, i: nat, p: real, q: real)
    requires i < |counts| && p <= q && Reached(counts, i, q)
    ensures Reached(counts, i, p)
  {
    var total := Sum(counts) as real;
    var upto := Sum(counts[..i + 1]) as real;
    BoundBelow(100.0 * upto, p, q, total);
  }

  lemma BoundBelow(x: real, p: real, q: real, t: real)
    requires p <= q && t >= 0.0 && x >= q * t
    ensures x >= p * t
  {
    ScaleLe(p, q, t);
  }

  lemma ScaleLe(p: real, q: real, t: real)
    requires p <= q && t >= 0.0
    ensures p * t <= q * t
  {
  }

  // ----- merge and rio_merge ----------------------------------------------

  /** The nodata value to use: the override, or the one the headers agree on. */
  function ResolveNodata(nodata: Json, headerNodatas: seq<Json>): (r: Result<Json>)
    ensures nodata != JNull ==> r == Ok(nodata)
    ensures nodata == JNull ==> r == GetNodata(headerNodatas)
  {
    if nodata == JNull then GetNodata(headerNodatas) else Ok(nodata)
  }

  /** What each input's header reports as its nodata value, in input order;
      `nodataOf` stands for reading one file's profile. */
  function HeaderNodatas(geotiffs: seq<string>, nodataOf: string -> Json): (r: seq<Json>)
    ensures |r| == |geotiffs| && forall i :: 0 <= i < |geotiffs| ==> r[i] == nodataOf(geotiffs[i])
  {
    seq(|geotiffs|, i requires 0 <= i < |geotiffs| => nodataOf(geotiffs[i]))
  }

  function TileOptions(tileSize: int): seq<string> {
    ["-co", "tiled=yes", "-co", "BLOCKXSIZE=" + IntToString(tileSize), "-co", "BLOCKYSIZE=" + IntToString(tileSize)]
  }

  /**
   * The gdalwarp branch of `merge`: the inputs warped into lcss +
   * 'merged.tif', tiled only when a tile size is given (0 stands for None).
   * The nodata value is resolved before the name is worked out. `asWritten`
   * picks the `_get_lcss` slice (see Lcss); `memorymax` and `show` are
   * Python's str() of the cache size and of a nodata value.
   */
  function Warp(geotiffs: seq<string>, nodata: Json, nodataOf: string -> Json, memorymax: string,
                tileSize: int, asWritten: bool, show: Json -> string): (r: Result<Job>)
    ensures var nd := ResolveNodata(nodata, HeaderNodatas(geotiffs, nodataOf));
      && (nd.Err? ==> r == Err(nd.error))
      && (nd.Ok? && geotiffs == [] ==> r == Err(StopIteration))
      && (r.Ok? <==> nd.Ok? && geotiffs != [])
      && (r.Ok? ==>
            r.value.outpath == Lcss(geotiffs, asWritten).value + "merged.tif" &&
            r.value.commands ==
              ["gdalwarp", "-overwrite", "--config", "GDAL_CACHEMAX", memorymax, "-multi", "-wo", "NUM_THREADS=ALL_CPUS",
               "-r", "bilinear", "-srcnodata", show(nd.value)]
              + geotiffs + [r.value.outpath] + (if tileSize != 0 then TileOptions(tileSize) else []))
  {
    var nd := ResolveNodata(nodata, HeaderNodatas(geotiffs, nodataOf));
    if nd.Err? then Err(nd.error)
    else
      match Lcss(geotiffs, asWritten)
      case Err(e) => Err(e)
      case Ok(lcss) =>
        var outpath := lcss + "merged.tif";
        var commands := ["gdalwarp", "-overwrite", "--config", "GDAL_CACHEMAX", memorymax, "-multi", "-wo",
                         "NUM_THREADS=ALL_CPUS", "-r", "bilinear", "-srcnodata", show(nd.value)]
                        + geotiffs + [outpath];
        Ok(Job(outpath, if tileSize != 0 then commands + TileOptions(tileSize) else commands))
  }

  /**
   * `merge` as written: its `rio_merge` keyword argument shadows the module
   * function of that name, so asking for the rio route calls a bool
   * (TypeError); otherwise the gdalwarp job, named with `_get_lcss` as
   * written.
   */
  function MergeAsWritten(geotiffs: seq<string>, nodata: Json, nodataOf: string -> Json, memorymax: string,
                          tileSize: int, rioMerge: bool, show: Json -> string): (r: Result<Job>)
    ensures rioMerge ==> r == Err(TypeError)
    ensures !rioMerge ==> r == Warp(geotiffs, nodata, nodataOf, memorymax, tileSize, true, show)
  {
    if rioMerge then Err(TypeError)
    else Warp(geotiffs, nodata, nodataOf, memorymax, tileSize, true, show)
  }

  /**
   * `merge` as evidently intended: with `rioMerge` the work goes to
   * `rio_merge`, otherwise to gdalwarp, both naming the output with the
   * intended longest shared text.
   */
  function Merge(geotiffs: seq<string>, nodata: Json, nodataOf: string -> Json, memorymax: string,
                 tileSize: int, rioMerge: bool, show: Json -> string): (r: Result<Job>)
    ensures rioMerge ==> r == RioMerge(geotiffs, nodata, nodataOf, false, show)
    ensures !rioMerge ==> r == Warp(geotiffs, nodata, nodataOf, memorymax, tileSize, false, show)
    ensures r.Ok? <==> geotiffs != [] && ResolveNodata(nodata, HeaderNodatas(geotiffs, nodataOf)).Ok?
    ensures r.Ok? ==> forall p :: p in geotiffs ==> Contains(p, Lcss(geotiffs, false).value)
  {
    LcssCommon(geotiffs, false);
    if rioMerge then RioMerge(geotiffs, nodata, nodataOf, false, show)
    else Warp(geotiffs, nodata, nodataOf, memorymax, tileSize, false, show)
  }

  /** Only the corrected `merge` reaches `rio_merge`: the same request fails
      as written and succeeds as intended for any inputs whose nodata value
      resolves. */
  lemma RioRouteShadowed(geotiffs: seq<string>, nodata: Json, nodataOf: string -> Json, memorymax: string,
                         tileSize: int, show: Json -> string)
    requires geotiffs != [] && ResolveNodata(nodata, HeaderNodatas(geotiffs, nodataOf)).Ok?
    ensures MergeAsWritten(geotiffs, nodata, nodataOf, memorymax, tileSize, true, show) == Err(TypeError)
    ensures Merge(geotiffs, nodata, nodataOf, memorymax, tileSize, true, show).Ok?
    ensures Merge(geotiffs, nodata, nodataOf, memorymax, tileSize, true, show).value.commands[..2] == ["rio", "merge"]
  {
  }

  /** `rio_merge`: the shared-text name is worked out before the nodata
      value. `asWritten` picks the `_get_lcss` slice (see Lcss). */
  function RioMerge(geotiffs: seq<string>, nodata: Json, nodataOf: string -> Json, asWritten: bool,
                    show: Json -> string): (r: Result<Job>)
    ensures geotiffs == [] ==> r == Err(StopIteration)
    ensures var nd := ResolveNodata(nodata, HeaderNodatas(geotiffs, nodataOf));
      && (geotiffs != [] && nd.Err? ==> r == Err(nd.error))
      && (r.Ok? ==>
            r.value.outpath == Lcss(geotiffs, asWritten).value + "merged.tif" &&
            r.value.commands == ["rio", "merge", "--overwrite", "--nodata", show(nd.value)]
                                + geotiffs + [r.value.outpath])
  {
    if geotiffs == [] then Err(StopIteration)
    else
      var nd := ResolveNodata(nodata, HeaderNodatas(geotiffs, nodataOf));
      if nd.Err? then Err(nd.error)
      else
        var outpath := Lcss(geotiffs, asWritten).value + "merged.tif";
        Ok(Job(outpath, ["rio", "merge", "--overwrite", "--nodata", show(nd.value)] + geotiffs + [outpath]))
  }

  // ----- make_cog ---------------------------------------------------------

  /** The name `make_cog` gives its output. */
  function CogOutpath(geotiff: string): string {
    if Contains(geotiff, "merged") then Before(geotiff, "merged") + ".tif"
    else Before(geotiff, ".tif") + "-cog.tif"
  }

  /** The name `expand_histogram` gives its 8-bit copy. */
  function ExpandedPath(geotiff: string): string {
    Before(geotiff, ".tif") + "-uint8.tif"
  }

  /**
   * `make_cog`. A one-band 16-bit input is first expanded to 8 bits and
   * converted with the fallback profile. The JPEG profile needs a
   * three-band 8-bit file; otherwise nothing is written and None comes
   * back. The probes `isGray16` and `validForJpeg` read a file's header.
   */
  function MakeCog(geotiff: string, profile: string, fallbackProfile: string, mask: bool, webmap: bool,
                   isGray16: string -> bool, validForJpeg: string -> bool): (r: Option<Job>)
    ensures var src := if isGray16(geotiff) then ExpandedPath(geotiff) else geotiff;
      var prof := if isGray16(geotiff) then fallbackProfile else profile;
      && (r.None? <==> prof == "jpeg" && !validForJpeg(src))
      && (r.Some? ==> r.value.outpath == CogOutpath(src))
      && (r.Some? ==>
            r.value.commands ==
              ["rio", "cogeo", "create", "-p", prof, "-r", "bilinear", "--overview-resampling", "bilinear", src, r.value.outpath]
              + (if mask then ["--add-mask"] else []) + (if webmap then ["-w"] else []))
  {
    var src := if isGray16(geotiff) then ExpandedPath(geotiff) else geotiff;
    var prof := if isGray16(geotiff) then fallbackProfile else profile;
    if prof == "jpeg" && !validForJpeg(src) then None
    else
      var outpath := CogOutpath(src);
      Some(Job(outpath,
        ["rio", "cogeo", "create", "-p", prof, "-r", "bilinear", "--overview-resampling", "bilinear", src, outpath]
        + (if mask then ["--add-mask"] else []) + (if webmap then ["-w"] else [])))
  }

  /** Merging then converting: lcss + 'merged.tif' becomes lcss + '.tif'. */
  lemma CogOfMerged(lcss: string, rest: string)
    requires !Contains(lcss, "merged")
    ensures CogOutpath(lcss + "merged" + rest) == lcss + ".tif"
  {
    HeadUniqueNames();
    ContainsMiddle(lcss, "merged", rest);
    BeforeRoundTrip(lcss, "merged", rest);
  }

  /** A plain input p.tif becomes p-cog.tif. */
  lemma CogOfPlain(p: string)
    requires !Contains(p, "merged") && !Contains(p, ".tif")
    ensures CogOutpath(p + ".tif") == p + "-cog.tif"
  {
    HeadUniqueNames();
    NotContainsAppend(p, ".tif", "merged");
    BeforeRoundTrip(p, ".tif", []);
    assert p + ".tif" + [] == p + ".tif";
  }

  // ----- band_separate_cog ------------------------------------------------

  /** The single-band file `band_separate_cog` extracts for band `b`. */
  function BandPath(geotiff: string, b: nat): string {
    Before(geotiff, ".tif") + "_B0" + NatToString(b) + "merged.tif"
  }

  function TranslateBand(geotiff: string, b: nat, nodata: Json, show: Json -> string): seq<string> {
    ["gdal_translate", "-b", NatToString(b), geotiff, BandPath(geotiff, b)]
    + (if nodata != JNull then ["-a_nodata", show(nodata)] else [])
  }

  function Outpath(j: Option<Job>): Option<string> {
    if j.Some? then Some(j.value.outpath) else None
  }

  /** What `make_cog` makes of band b's file. */
  function BandCog(geotiff: string, b: nat, profile: string, fallbackProfile: string, mask: bool, webmap: bool,
                   isGray16: string -> bool, validForJpeg: string -> bool): Option<string>
  {
    Outpath(MakeCog(BandPath(geotiff, b), profile, fallbackProfile, mask, webmap, isGray16, validForJpeg))
  }

  /**
   * `band_separate_cog`: for each band 1..count (count is what the header
   * reports, 0 when absent) a gdal_translate that extracts the band, then
   * `make_cog` on the extracted file.
   */
  method BandSeparateCog(geotiff: string, profile: string, fallbackProfile: string, nodata: Json, count: int,
                         mask: bool, webmap: bool, isGray16: string -> bool, validForJpeg: string -> bool,
                         show: Json -> string)
    returns (translates: seq<seq<string>>, outpaths: seq<Option<string>>)
    ensures |translates| == |outpaths| == Max(count, 0)
    ensures forall i :: 0 <= i < |translates| ==> translates[i] == TranslateBand(geotiff, i + 1, nodata, show)
    ensures forall i :: 0 <= i < |outpaths| ==>
      outpaths[i] == BandCog(geotiff, i + 1, profile, fallbackProfile, mask, webmap, isGray16, validForJpeg)
  {
    translates := [];
    outpaths := [];
    var b := 1;
    while b <= count
      invariant 1 <= b <= Max(count, 0) + 1
      invariant |translates| == |outpaths| == b - 1
      invariant forall i :: 0 <= i < b - 1 ==> translates[i] == TranslateBand(geotiff, i + 1, nodata, show)
      invariant forall i :: 0 <= i < b - 1 ==>
        outpaths[i] == BandCog(geotiff, i + 1, profile, fallbackProfile, mask, webmap, isGray16, validForJpeg)
    {
      var bandpath := BandPath(geotiff, b);
      var commands := ["gdal_translate", "-b", NatToString(b), geotiff, bandpath];
      if nodata != JNull {
        commands := commands + ["-a_nodata", show(nodata)];
      }
      assert commands == TranslateBand(geotiff, b, nodata, show);
      var outpath := BandCog(geotiff, b, profile, fallbackProfile, mask, webmap, isGray16, validForJpeg);
      ghost var done := translates;
      translates := translates + [commands];
      outpaths := outpaths + [outpath];
      forall i | 0 <= i < b
        ensures translates[i] == TranslateBand(geotiff, i + 1, nodata, show)
      {
        if i < b - 1 {
          assert translates[i] == done[i];
        }
      }
      b := b + 1;
    }
  }

  /** The text before a band file's "merged": the input's stem, the band tag
      and the band number. */
  lemma BandStem(geotiff: string, b: nat)
    requires !Contains(Before(geotiff, ".tif"), "merged")
    ensures var stem := Before(geotiff, ".tif") + "_B0" + NatToString(b);
      !Contains(stem, "merged") && !Contains(stem, ".tif") &&
      BandPath(geotiff, b) == stem + "merged" + ".tif"
  {
    var base := Before(geotiff, ".tif");
    var tag := "_B0" + NatToString(b);
    assert forall k :: 0 <= k < |tag| ==> tag[k] !in "merged" && tag[k] !in ".tif";
    NotContainsAppend(base, tag, "merged");
    BeforeHasNoSep(geotiff, ".tif");
    NotContainsAppend(base, tag, ".tif");
    assert base + "_B0" + NatToString(b) == base + tag;
  }

  /**
   * Every band's COG is named stem + '_B0' + band + '.tif', whether or not
   * the band file had to be expanded to 8 bits first, so the bands' outputs
   * never collide.
   */
  lemma BandCogName(geotiff: string, b: nat, profile: string, fallbackProfile: string, mask: bool, webmap: bool,
                    isGray16: string -> bool, validForJpeg: string -> bool)
    requires !Contains(Before(geotiff, ".tif"), "merged")
    ensures var o := Outpath(MakeCog(BandPath(geotiff, b), profile, fallbackProfile, mask, webmap, isGray16, validForJpeg));
      o.Some? ==> o.value == Before(geotiff, ".tif") + "_B0" + NatToString(b) + ".tif"
  {
    var stem := Before(geotiff, ".tif") + "_B0" + NatToString(b);
    BandStem(geotiff, b);
    HeadUniqueNames();
    var bp := BandPath(geotiff, b);
    if isGray16(bp) {
      // the expanded copy is stem + "merged" + "-uint8.tif"
      assert bp == stem + "merged" + ".tif" + [];
      NotContainsAppend(stem, "merged", ".tif");
      BeforeRoundTrip(stem + "merged", ".tif", []);
      assert ExpandedPath(bp) == stem + "merged" + "-uint8.tif";
      CogOfMerged(stem, "-uint8.tif");
    } else {
      CogOfMerged(stem, ".tif");
    }
  }

  /** Different bands get different COG names. */
  lemma BandCogNamesDistinct(geotiff: string, b1: nat, b2: nat)
    requires b1 != b2
    ensures Before(geotiff, ".tif") + "_B0" + NatToString(b1) + ".tif" != Before(geotiff, ".tif") + "_B0" + NatToString(b2) + ".tif"
  {
    var pre := Before(geotiff, ".tif") + "_B0";
    var s1 := NatToString(b1);
    var s2 := NatToString(b2);
    if pre + s1 + ".tif" == pre + s2 + ".tif" {
      assert |s1| == |s2|;
      assert s1 == (pre + s1 + ".tif")[|pre|..|pre| + |s1|];
      assert s2 == (pre + s2 + ".tif")[|pre|..|pre| + |s2|];
      NatToStringInjective(b1, b2);
    }
  }
}
