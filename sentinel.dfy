/**
 * Bulk download of Sentinel-2 true-color tiles from the requester-pays s3
 * bucket, and conversion of the JPEG2000 files to GeoTiffs.
 */
module Sentinel {
  import opened Wrappers
  import opened Py

  /** The path a (date, zone) tile is written to; the name carries every
      requested date, joined by '-'. */
  function Outpath(destDir: string, level: string, dates: seq<string>, zone: string, date: string): (r: string)
    ensures var name := level + Join("-", dates) + "TCI_" + zone + date + ".jp2";
      |r| >= |name| && r[|r| - |name|..] == name
  {
    PathJoin(destDir, level + Join("-", dates) + "TCI_" + zone + date + ".jp2")
  }

  /** The date fields of the payload: year, month and day of 'YYYYMMDD', month
      and day without leading zeros. */
  datatype DateFields = DateFields(year: string, month: string, day: string)

  /** `t` is `s` with its leading zeros removed: a suffix of `s` that does
      not start with '0', everything before it being '0'. */
  predicate StrippedOf(s: string, t: string) {
    |t| <= |s| && t == s[|s| - |t|..] &&
    (|t| > 0 ==> t[0] != '0') &&
    forall k :: 0 <= k < |s| - |t| ==> s[k] == '0'
  }

  function DateOf(date: string): (d: DateFields)
    ensures d.year == Slice(date, 0, 4)
    ensures StrippedOf(Slice(date, 4, 6), d.month) && StrippedOf(Drop(date, 6), d.day)
  {
    DateFields(Slice(date, 0, 4), LStrip(Slice(date, 4, 6), '0'), LStrip(Drop(date, 6), '0'))
  }

  /** The zone fields: UTM zone, latitude band and grid square of e.g. '19NLJ'. */
  datatype ZoneFields = ZoneFields(utmZone: string, latBand: string, gridSquare: string)

  function ZoneOf(zone: string): (z: ZoneFields)
    ensures z.utmZone + z.latBand + z.gridSquare == zone
  {
    SliceSplit(zone, 2, 3);
    ZoneFields(Slice(zone, 0, 2), Slice(zone, 2, 3), Drop(zone, 3))
  }

  /** The AWS_GRAB template split on whitespace (no field holds whitespace). */
  function GrabCommand(level: string, d: DateFields, z: ZoneFields, outpath: string, awsProfile: string): (c: seq<string>)
    ensures |c| == 6 + (if awsProfile != [] then 2 else 0)
    ensures c[..3] == ["aws", "s3", "cp"]
    ensures c[3] == "s3://sentinel-s2-" + Lower(level) + "/tiles/" +
                    Join("/", [z.utmZone, z.latBand, z.gridSquare, d.year, d.month, d.day]) + "/0/R10m/TCI.jp2"
    ensures c[4] == outpath && c[5] == "--request-payer"
    ensures awsProfile != [] ==> c[6..] == ["--profile", awsProfile]
  {
    var parts := [z.utmZone, z.latBand, z.gridSquare, d.year, d.month, d.day];
    JoinSix(parts);
    ["aws", "s3", "cp",
     "s3://sentinel-s2-" + Lower(level) + "/tiles/"
       + (z.utmZone + "/" + z.latBand + "/" + z.gridSquare + "/" + d.year + "/" + d.month + "/" + d.day)
       + "/0/R10m/TCI.jp2",
     outpath, "--request-payer"]
    + (if awsProfile != [] then ["--profile", awsProfile] else [])
  }

  lemma JoinSix(xs: seq<string>)
    requires |xs| == 6
    ensures Join("/", xs) == xs[0] + "/" + xs[1] + "/" + xs[2] + "/" + xs[3] + "/" + xs[4] + "/" + xs[5]
  {
    assert Join("/", xs[5..]) == xs[5];
    assert Join("/", xs[4..]) == xs[4] + "/" + xs[5];
    assert Join("/", xs[3..]) == xs[3] + "/" + Join("/", xs[4..]);
    assert Join("/", xs[2..]) == xs[2] + "/" + Join("/", xs[3..]);
    assert Join("/", xs[1..]) == xs[1] + "/" + Join("/", xs[2..]);
  }

  /** The (date, zone) pairs `download` visits: dates outer, zones inner. */
  function Tiles(dates: seq<string>, zones: seq<string>): (t: seq<(string, string)>)
    ensures |dates| == 0 || |zones| == 0 ==> t == []
  {
    if dates == [] then []
    else Tiles(dates[..|dates| - 1], zones) + Row(dates[|dates| - 1], zones)
  }

  function Row(date: string, zones: seq<string>): (r: seq<(string, string)>)
    ensures |r| == |zones| && forall j :: 0 <= j < |zones| ==> r[j] == (date, zones[j])
  {
    seq(|zones|, j requires 0 <= j < |zones| => (date, zones[j]))
  }

  /** The tiles of the first dates come first. */
  lemma {:induction false} TilesPrefix(dates: seq<string>, zones: seq<string>, m: nat)
    requires m <= |dates|
    ensures |Tiles(dates[..m], zones)| <= |Tiles(dates, zones)|
    ensures Tiles(dates[..m], zones) == Tiles(dates, zones)[..|Tiles(dates[..m], zones)|]
    decreases |dates| - m
  {
    if m < |dates| {
      var init := dates[..|dates| - 1];
      assert init[..m] == dates[..m];
      TilesPrefix(init, zones, m);
    } else {
      assert dates[..m] == dates;
    }
  }

  /** Date i's zones follow the tiles of the dates before it, in zone order. */
  lemma TilesAt(dates: seq<string>, zones: seq<string>, i: nat, j: nat)
    requires i < |dates| && j < |zones|
    ensures |Tiles(dates[..i], zones)| + j < |Tiles(dates, zones)|
    ensures Tiles(dates, zones)[|Tiles(dates[..i], zones)| + j] == (dates[i], zones[j])
  {
    TilesPrefix(dates, zones, i + 1);
    var upto := dates[..i + 1];
    assert upto[..|upto| - 1] == dates[..i];
    assert Tiles(upto, zones) == Tiles(dates[..i], zones) + Row(dates[i], zones);
  }

  lemma {:induction false} TilesLength(dates: seq<string>, zones: seq<string>)
    ensures |Tiles(dates, zones)| == |dates| * |zones|
    decreases |dates|
  {
    if dates != [] {
      TilesLength(dates[..|dates| - 1], zones);
      assert (|dates| - 1) * |zones| + |zones| == |dates| * |zones|;
    }
  }

  /** The arguments of one `download` call that every tile shares. An empty
      `awsProfile` stands for None; `present` holds the paths that exist
      when the call starts. */
  datatype Request = Request(level: string, dates: seq<string>, redownload: bool, destDir: string,
                             awsProfile: string, present: set<string>)

  /** The outpath and fetch command for a (date, zone) tile. */
  ghost predicate TileDone(req: Request, outpath: string, fetch: Option<seq<string>>, tile: (string, string)) {
    outpath == Outpath(req.destDir, req.level, req.dates, tile.1, tile.0) &&
    fetch == Fetch(req.level, tile.0, tile.1, outpath, req.redownload, req.awsProfile, req.present)
  }

  /** What has been produced for each tile so far. */
  ghost predicate Produced(req: Request, outpaths: seq<string>, fetches: seq<Option<seq<string>>>,
                           tiles: seq<(string, string)>)
  {
    |outpaths| == |fetches| == |tiles| &&
    forall k :: 0 <= k < |tiles| ==> TileDone(req, outpaths[k], fetches[k], tiles[k])
  }

  lemma ProducedConcat(req: Request, outpaths: seq<string>, fetches: seq<Option<seq<string>>>, tiles: seq<(string, string)>,
                       outpaths': seq<string>, fetches': seq<Option<seq<string>>>, tiles': seq<(string, string)>)
    requires Produced(req, outpaths, fetches, tiles)
    requires Produced(req, outpaths', fetches', tiles')
    ensures Produced(req, outpaths + outpaths', fetches + fetches', tiles + tiles')
  {
    var o, f, t := outpaths + outpaths', fetches + fetches', tiles + tiles';
    forall k | 0 <= k < |t|
      ensures TileDone(req, o[k], f[k], t[k])
    {
      if k >= |tiles| {
        var k' := k - |tiles|;
        assert TileDone(req, outpaths'[k'], fetches'[k'], tiles'[k']);
      } else {
        assert TileDone(req, outpaths[k], fetches[k], tiles[k]);
      }
    }
  }

  /** One pass of the inner loop: the tile's path, and its command unless the
      file is present and `redownload` is off. */
  method DownloadTile(req: Request, date: string, d: DateFields, zone: string)
    returns (outpath: string, fetch: Option<seq<string>>)
    requires d == DateOf(date)
    ensures TileDone(req, outpath, fetch, (date, zone))
  {
    outpath := Outpath(req.destDir, req.level, req.dates, zone, date);
    fetch := None;
    if outpath !in req.present || req.redownload {
      fetch := Some(GrabCommand(req.level, d, ZoneOf(zone), outpath, req.awsProfile));
    }
  }

  lemma TakeNext<T>(s: seq<T>, j: nat)
    requires j < |s|
    ensures s[..j + 1] == s[..j] + [s[j]]
  {
  }

  lemma TakeAll<T>(s: seq<T>)
    ensures s[..|s|] == s
  {
  }

  /** The inner loop of `download`: every zone for one date. */
  method DownloadDate(req: Request, zones: seq<string>, date: string)
    returns (outpaths: seq<string>, fetches: seq<Option<seq<string>>>)
    ensures Produced(req, outpaths, fetches, Row(date, zones))
  {
    var d := DateOf(date);
    ghost var row := Row(date, zones);
    outpaths := [];
    fetches := [];
    for j := 0 to |zones|
      invariant Produced(req, outpaths, fetches, row[..j])
    {
      TakeNext(row, j);
      var zone := zones[j];
      var outpath, fetch := DownloadTile(req, date, d, zone);
      ProducedConcat(req, outpaths, fetches, row[..j], [outpath], [fetch], [(date, zone)]);
      outpaths := outpaths + [outpath];
      fetches := fetches + [fetch];
    }
    TakeAll(row);
  }

  /**
   * `download`: one outpath per (date, zone), dates outer and zones inner.
   * `fetches[k]` is the command run for `outpaths[k]`: there exactly when
   * that path was not on disk or `redownload` is set.
   */
  method Download(level: string, zones: seq<string>, dates: seq<string>, redownload: bool, destDir: string,
                  awsProfile: string, present: set<string>)
    returns (outpaths: seq<string>, fetches: seq<Option<seq<string>>>)
    ensures Produced(Request(level, dates, redownload, destDir, awsProfile, present), outpaths, fetches, Tiles(dates, zones))
  {
    var req := Request(level, dates, redownload, destDir, awsProfile, present);
    outpaths := [];
    fetches := [];
    for i := 0 to |dates|
      invariant Produced(req, outpaths, fetches, Tiles(dates[..i], zones))
    {
      var os, fs := DownloadDate(req, zones, dates[i]);
      assert dates[..i + 1][..i] == dates[..i];
      ProducedConcat(req, outpaths, fetches, Tiles(dates[..i], zones), os, fs, Row(dates[i], zones));
      outpaths := outpaths + os;
      fetches := fetches + fs;
    }
    TakeAll(dates);
  }

  /** Date i's tile for zone j follows the tiles of the dates before it (by
      TilesLength, i * |zones| of them), so the outpaths run dates outer and
      zones inner. */
  lemma DownloadOrder(req: Request, outpaths: seq<string>, fetches: seq<Option<seq<string>>>, zones: seq<string>,
                      i: nat, j: nat)
    requires Produced(req, outpaths, fetches, Tiles(req.dates, zones))
    requires i < |req.dates| && j < |zones|
    ensures |Tiles(req.dates[..i], zones)| + j < |outpaths|
    ensures outpaths[|Tiles(req.dates[..i], zones)| + j] == Outpath(req.destDir, req.level, req.dates, zones[j], req.dates[i])
  {
    TilesAt(req.dates, zones, i, j);
    var k := |Tiles(req.dates[..i], zones)| + j;
    assert TileDone(req, outpaths[k], fetches[k], Tiles(req.dates, zones)[k]);
  }

  /** There is one outpath per (date, zone) pair. */
  lemma DownloadCount(req: Request, outpaths: seq<string>, fetches: seq<Option<seq<string>>>, zones: seq<string>)
    requires Produced(req, outpaths, fetches, Tiles(req.dates, zones))
    ensures |outpaths| == |fetches| == |req.dates| * |zones|
  {
    TilesLength(req.dates, zones);
  }

  /** The command for one tile, or None when it is already present. */
  function Fetch(level: string, date: string, zone: string, outpath: string, redownload: bool, awsProfile: string,
                 present: set<string>): (f: Option<seq<string>>)
    ensures f.Some? <==> outpath !in present || redownload
    ensures f.Some? ==> |f.value| >= 6 && f.value[4] == outpath
  {
    if outpath !in present || redownload then Some(GrabCommand(level, DateOf(date), ZoneOf(zone), outpath, awsProfile))
    else None
  }

  /**
   * `jp2_to_geotiff`: the .tif beside the .jp2. `convert` is the rio command,
   * None when the .tif exists and `overwrite` is off; `removeTif` says the old
   * .tif is deleted first and `removeJp2` that the .jp2 is deleted after.
   * A `tileSize` of 0 stands for None.
   */
  method Jp2ToGeotiff(jp2: string, tileSize: int, overwrite: bool, clean: bool, tifExists: bool)
    returns (geotiff: string, removeTif: bool, convert: Option<seq<string>>, removeJp2: bool)
    ensures geotiff == Before(jp2, ".jp2") + ".tif"
    ensures convert.None? <==> tifExists && !overwrite
    ensures removeTif <==> tifExists && overwrite
    ensures removeJp2 <==> convert.Some? && clean
    ensures convert.Some? && tileSize != 0 ==>
      convert.value == ["rio", "convert", "--co", "tiled=yes", "--co", "BLOCKXSIZE=" + IntToString(tileSize),
                        "--co", "BLOCKYSIZE=" + IntToString(tileSize), jp2, geotiff]
    ensures convert.Some? && tileSize == 0 ==> convert.value == ["rio", "convert", jp2, geotiff]
  {
    geotiff := Before(jp2, ".jp2") + ".tif";
    var commands;
    if tileSize != 0 {
      commands := ["rio", "convert", "--co", "tiled=yes", "--co", "BLOCKXSIZE=" + IntToString(tileSize),
                   "--co", "BLOCKYSIZE=" + IntToString(tileSize), jp2, geotiff];
    } else {
      commands := ["rio", "convert", jp2, geotiff];
    }
    removeTif, removeJp2 := false, false;
    if tifExists {
      if overwrite {
        removeTif := true;
      } else {
        convert := None;
        return;
      }
    }
    convert := Some(commands);
    removeJp2 := clean;
  }

  /** A downloaded tile converts to the same path with .tif for .jp2, as long
      as no name part holds ".jp2" itself. */
  lemma DownloadedTileTifName(destDir: string, level: string, dates: seq<string>, zone: string, date: string, stem: string)
    requires Outpath(destDir, level, dates, zone, date) == stem + ".jp2"
    requires !Contains(stem, ".jp2")
    ensures Before(Outpath(destDir, level, dates, zone, date), ".jp2") + ".tif" == stem + ".tif"
  {
    HeadUniqueNames();
    BeforeRoundTrip(stem, ".jp2", []);
    assert stem + ".jp2" + [] == stem + ".jp2";
  }
}
