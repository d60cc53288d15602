/**
 * The DigitalGlobe grabber of the web app: the catalog search filters, the
 * scene loop that keeps well-overlapped records whose imagery the catalog
 * hands over, the projection choice, the band choice of the download and
 * the output file name.
 *
 * A catalog record is reduced to its identifier, its timestamp string and
 * its acquisition day (a day number standing for the parsed timestamp).
 * The overlap of a record with the box and the outcome of requesting its
 * imagery (gbdxtools.CatalogImage) are parameters.
 */
module Dg {
  import opened Wrappers
  import opened Json
  import opened Py
  import opened Grabber
  import opened Projections

  const KnownImageSources: seq<string> :=
    ["WORLDVIEW02", "WORLDVIEW03_VNIR", "GEOEYE01", "QUICKBIRD02", "IKONOS"]

  /** DG band numbers of the red, green, blue and near-infrared bands, keyed
      by the number of bands of the image. */
  const BandMap: map<string, seq<nat>> := map["4" := [2, 1, 0, 3], "8" := [4, 2, 1, 6]]

  datatype Record = Record(identifier: string, timestamp: string, day: int)

  /** One DG scene: a list holding a single record. */
  type Scene = seq<Record>

  function DayOf(r: Record): int { r.day }

  // ----- str() and int() of spec values ------------------------------------

  /**
   * Python's `str(x)` as `format` uses it: strings are themselves, ints
   * their decimal digits, bools and None their names. The rendering of a
   * float, list or dict is the parameter `show`.
   */
  function Str(j: Json, show: Json -> string): (r: string)
    ensures j.JStr? ==> r == j.s
    ensures j.JInt? && j.i >= 0 ==> r == NatToString(j.i)
  {
    match j
    case JStr(s) => s
    case JInt(i) => IntToString(i)
    case JBool(b) => if b then "True" else "False"
    case JNull => "None"
    case _ => show(j)
  }

  /**
   * `int(x)`: bools are 0 and 1, floats truncate toward zero, strings of
   * decimal digits are parsed (ValueError otherwise), and None, lists and
   * dicts are a TypeError.
   */
  function ToInt(j: Json): (r: Result<int>)
    ensures j.JInt? ==> r == Ok(j.i)
    ensures j.JNum? ==> r == Ok(TruncToInt(j.r))
    ensures r.Err? <==> (j.JNull? || j.JList? || j.JObj? ||
      (j.JStr? && (j.s == [] || exists k :: 0 <= k < |j.s| && !IsDigit(j.s[k]))))
  {
    match j
    case JBool(b) => Ok(if b then 1 else 0)
    case JInt(i) => Ok(i)
    case JNum(x) => Ok(TruncToInt(x))
    case JStr(s) =>
      if s != [] && forall k :: 0 <= k < |s| ==> IsDigit(s[k]) then Ok(ParseNat(s)) else Err(ValueError)
    case _ => Err(TypeError)
  }

  // ----- _build_search_filters ---------------------------------------------

  /** The values a spec iterates over: a list's members, a string's
      one-character strings; any other value cannot be iterated. */
  function Items(j: Json): (r: Result<seq<Json>>)
    ensures r.Ok? <==> j.JList? || j.JStr?
    ensures j.JList? ==> r == Ok(j.items)
    ensures j.JStr? ==> |r.value| == |j.s| && forall k :: 0 <= k < |j.s| ==> r.value[k] == JStr([j.s[k]])
  {
    match j
    case JList(xs) => Ok(xs)
    case JStr(s) => Ok(seq(|s|, k requires 0 <= k < |s| => JStr([s[k]])))
    case _ => Err(TypeError)
  }

  function SensorClause(source: string): string {
    "sensorPlatformName = '" + source + "'"
  }

  /** The first filter: the sensor clauses joined by " OR ", in parentheses. */
  function SensorFilter(sources: seq<Json>, show: Json -> string): (r: string)
    ensures r == "(" + Join(" OR ", seq(|sources|, k requires 0 <= k < |sources| => SensorClause(Str(sources[k], show)))) + ")"
    ensures |r| >= 2 && r[0] == '(' && r[|r| - 1] == ')'
    ensures forall k :: 0 <= k < |sources| ==> Contains(r, SensorClause(Str(sources[k], show)))
  {
    var clauses := seq(|sources|, k requires 0 <= k < |sources| => SensorClause(Str(sources[k], show)));
    var joined := Join(" OR ", clauses);
    var r := "(" + joined + ")";
    forall k | 0 <= k < |sources|
      ensures Contains(r, SensorClause(Str(sources[k], show)))
    {
      JoinContains(" OR ", clauses, k);
      ContainsTrans(r, joined, clauses[k]);
      ContainsMiddle("(", joined, ")");
    }
    r
  }

  function CloudFilter(clouds: int): string {
    "cloudCover < " + IntToString(clouds)
  }

  /** The first two filters, shared by the code as written and the
      corrected one: KeyError for a missing spec, TypeError for sources
      that cannot be iterated, and `int()`'s errors for the cloud cover. */
  function BaseFilters(specs: map<string, Json>, show: Json -> string): (r: Result<seq<string>>)
    ensures "image_source" !in specs ==> r == Err(KeyError)
    ensures r.Ok? <==> ("image_source" in specs && Items(specs["image_source"]).Ok? &&
      "clouds" in specs && ToInt(specs["clouds"]).Ok?)
    ensures r.Ok? ==> (|r.value| == 2 &&
      r.value[0] == SensorFilter(Items(specs["image_source"]).value, show) &&
      r.value[1] == CloudFilter(ToInt(specs["clouds"]).value))
  {
    if "image_source" !in specs then Err(KeyError)
    else
      var sources :- Items(specs["image_source"]);
      if "clouds" !in specs then Err(KeyError)
      else
        var clouds :- ToInt(specs["clouds"]);
        Ok([SensorFilter(sources, show), CloudFilter(clouds)])
  }

  /**
   * `_build_search_filters` as written: a truthy offNadirAngle is formatted
   * into 'offNadirAngle {} {}' as ONE argument, so the second field has no
   * argument and `format` raises IndexError. Only a falsy offNadirAngle
   * gives filters.
   */
  function BuildSearchFiltersAsWritten(specs: map<string, Json>, show: Json -> string): (r: Result<seq<string>>)
    ensures BaseFilters(specs, show).Err? ==> r == Err(BaseFilters(specs, show).error)
    ensures BaseFilters(specs, show).Ok? && "offNadirAngle" !in specs ==> r == Err(KeyError)
    ensures BaseFilters(specs, show).Ok? && "offNadirAngle" in specs && Truthy(specs["offNadirAngle"]) ==>
      r == Err(IndexError)
    ensures r.Ok? <==> BaseFilters(specs, show).Ok? && "offNadirAngle" in specs && !Truthy(specs["offNadirAngle"])
    ensures r.Ok? ==> r.value == BaseFilters(specs, show).value
  {
    var filters :- BaseFilters(specs, show);
    if "offNadirAngle" !in specs then Err(KeyError)
    else if Truthy(specs["offNadirAngle"]) then Err(IndexError)
    else Ok(filters)
  }

  /**
   * `_build_search_filters` as intended: offNadirAngle is a (relation,
   * angle) pair, unpacked into the two fields, e.g. 'offNadirAngle < 10'.
   * Unpacking anything that does not hold exactly two values is a
   * ValueError; a value that cannot be iterated is a TypeError.
   */
  function BuildSearchFilters(specs: map<string, Json>, show: Json -> string): (r: Result<seq<string>>)
    ensures BaseFilters(specs, show).Err? ==> r == Err(BaseFilters(specs, show).error)
    ensures BaseFilters(specs, show).Ok? && "offNadirAngle" !in specs ==> r == Err(KeyError)
    ensures r.Ok? ==> 2 <= |r.value| <= 3 && r.value[..2] == BaseFilters(specs, show).value
    ensures r.Ok? ==> (|r.value| == 3 <==> Truthy(specs["offNadirAngle"]))
    ensures BaseFilters(specs, show).Ok? && "offNadirAngle" in specs && Truthy(specs["offNadirAngle"]) ==>
      var pair := Items(specs["offNadirAngle"]);
      (r.Ok? <==> pair.Ok? && |pair.value| == 2) &&
      (pair.Err? ==> r == Err(pair.error)) &&
      (pair.Ok? && |pair.value| != 2 ==> r == Err(ValueError)) &&
      (r.Ok? ==> r.value[2] == "offNadirAngle " + Str(pair.value[0], show) + " " + Str(pair.value[1], show))
    ensures BaseFilters(specs, show).Ok? && "offNadirAngle" in specs && specs["offNadirAngle"] == JList([JStr("<"), JInt(10)]) ==>
      r.Ok? && r.value[2] == "offNadirAngle < 10"
  {
    var filters :- BaseFilters(specs, show);
    if "offNadirAngle" !in specs then Err(KeyError)
    else if !Truthy(specs["offNadirAngle"]) then Ok(filters)
    else
      var pair :- Items(specs["offNadirAngle"]);
      if |pair| != 2 then Err(ValueError)
      else
        var r := filters + ["offNadirAngle " + Str(pair[0], show) + " " + Str(pair[1], show)];
        assert r[..2] == filters;
        assert NatToString(10) == "10";
        Ok(r)
  }

  /** The cloud cover bound can be read back from the second filter. */
  lemma CloudFilterRoundTrip(specs: map<string, Json>, show: Json -> string)
    requires BuildSearchFilters(specs, show).Ok?
    requires specs["clouds"].JInt? && specs["clouds"].i >= 0
    ensures var f := BuildSearchFilters(specs, show).value[1];
      IsPrefix("cloudCover < ", f) &&
      (forall k :: 13 <= k < |f| ==> IsDigit(f[k])) &&
      ParseNat(f[13..]) == specs["clouds"].i
  {
    var f := BuildSearchFilters(specs, show).value[1];
    assert f == "cloudCover < " + NatToString(specs["clouds"].i);
    assert f[13..] == NatToString(specs["clouds"].i);
    ParseNatToString(specs["clouds"].i);
  }

  /** A spec with an offNadirAngle pair: the code as written raises
      IndexError where the intended filters carry the angle clause. */
  lemma OffNadirWitness(show: Json -> string)
    ensures var specs := map["image_source" := JList([JStr("WORLDVIEW02")]), "clouds" := JInt(10),
                             "offNadirAngle" := JList([JStr("<"), JInt(10)])];
      BuildSearchFiltersAsWritten(specs, show) == Err(IndexError) &&
      BuildSearchFilters(specs, show).Ok? &&
      BuildSearchFilters(specs, show).value[2] == "offNadirAngle < 10"
  {
    var specs := map["image_source" := JList([JStr("WORLDVIEW02")]), "clouds" := JInt(10),
                     "offNadirAngle" := JList([JStr("<"), JInt(10)])];
    assert BaseFilters(specs, show).Ok?;
  }

  // ----- _download band choice ---------------------------------------------

  /** Band counts with an entry in BandMap. */
  lemma BandMapKeys(nbands: nat)
    ensures NatToString(nbands) in BandMap <==> nbands == 4 || nbands == 8
  {
    assert NatToString(4) == "4" && NatToString(8) == "8";
    if NatToString(nbands) == "4" {
      NatToStringInjective(nbands, 4);
    } else if NatToString(nbands) == "8" {
      NatToStringInjective(nbands, 8);
    }
  }

  /**
   * The bands `_download` writes for an image with `nbands` bands: the
   * BandMap entry (KeyError for any other band count), cut to red, green
   * and blue unless landcover indices are requested. Every band number is
   * a band of the image, and no band is written twice.
   */
  function Bands(nbands: nat, landcoverIndices: Json): (r: Result<seq<nat>>)
    ensures r.Ok? <==> nbands == 4 || nbands == 8
    ensures r.Ok? ==> |r.value| == (if Truthy(landcoverIndices) then 4 else 3)
    ensures r.Ok? ==> r.value == BandMap[NatToString(nbands)][..|r.value|]
    ensures r.Ok? ==> Distinct(r.value) && forall k :: 0 <= k < |r.value| ==> r.value[k] < nbands
  {
    BandMapKeys(nbands);
    var key := NatToString(nbands);
    if key !in BandMap then Err(KeyError)
    else
      var bands := BandMap[key];
      assert nbands == 4 || nbands == 8;
      assert NatToString(4) == "4" && NatToString(8) == "8";
      if Truthy(landcoverIndices) then
        assert bands[..4] == bands;
        Ok(bands)
      else Ok(bands[..3])
  }

  // ----- _build_filename ---------------------------------------------------

  /**
   * `_build_filename`: header, identifier, '_', timestamp, the box tag
   * 'bbox' with the four bounds joined by '_', and '.tif'. `fmt` is the
   * '{:.4f}' rendering of a bound.
   */
  function Filename(header: string, identifier: string, timestamp: string,
                    bounds: (real, real, real, real), fmt: real -> string): (r: string)
    ensures r == header + identifier + "_" + timestamp + "bbox" +
                 Join("_", [fmt(bounds.0), fmt(bounds.1), fmt(bounds.2), fmt(bounds.3)]) + ".tif"
    ensures IsPrefix(header + identifier + "_" + timestamp + "bbox", r)
    ensures |r| >= 4 && r[|r| - 4..] == ".tif"
  {
    var stem := header + identifier + "_" + timestamp + "bbox";
    var name := stem + fmt(bounds.0) + "_" + fmt(bounds.1) + "_" + fmt(bounds.2) + "_" + fmt(bounds.3) + ".tif";
    var parts := [fmt(bounds.0), fmt(bounds.1), fmt(bounds.2), fmt(bounds.3)];
    assert Join("_", parts[3..]) == fmt(bounds.3);
    assert Join("_", parts[2..]) == fmt(bounds.2) + "_" + fmt(bounds.3);
    assert Join("_", parts[1..]) == fmt(bounds.1) + "_" + (fmt(bounds.2) + "_" + fmt(bounds.3));
    assert Join("_", parts) == fmt(bounds.0) + "_" + (fmt(bounds.1) + "_" + (fmt(bounds.2) + "_" + fmt(bounds.3)));
    assert name[..|stem|] == stem;
    name
  }

  /** DG catalog ids have a fixed length; for ids of equal length the
      file name tells the id apart. */
  lemma FilenameDeterminesId(header: string, a: string, b: string, ta: string, tb: string,
                             ba: (real, real, real, real), bb: (real, real, real, real), fmt: real -> string)
    requires |a| == |b| && Filename(header, a, ta, ba, fmt) == Filename(header, b, tb, bb, fmt)
    ensures a == b
  {
    var na := Filename(header, a, ta, ba, fmt);
    assert na[..|header| + |a|] == (header + a + "_" + ta + "bbox")[..|header| + |a|] == header + a;
    assert na[..|header| + |b|] == (header + b + "_" + tb + "bbox")[..|header| + |b|] == header + b;
    assert a == (header + a)[|header|..];
    assert b == (header + b)[|header|..];
  }

  // ----- The grabber -------------------------------------------------------

  /**
   * DGImageGrabber: its specs live in the ImageGrabber template it
   * extends, held here as `base`.
   */
  class DgGrabber {
    const base: ImageGrabber

    constructor (base: ImageGrabber)
      ensures this.base == base
    {
      this.base := base;
    }

    /**
     * `_get_projection`: a truthy override_proj is the projection as it
     * stands; otherwise 'EPSG:' and the UTM code of the box centroid, which
     * reads back as that code.
     */
    function Projection(lat: real, lon: real): (r: Result<Json>)
      reads base
      ensures "override_proj" !in base.specs <==> r == Err(KeyError)
      ensures "override_proj" in base.specs && Truthy(base.specs["override_proj"]) ==>
        r == Ok(base.specs["override_proj"])
      ensures "override_proj" in base.specs && !Truthy(base.specs["override_proj"]) ==>
        r.Ok? && r.value.JStr? && IsPrefix("EPSG:", r.value.s)
      ensures "override_proj" in base.specs && !Truthy(base.specs["override_proj"]) && UtmCode(lat, lon) >= 0 ==>
        (forall k :: 5 <= k < |r.value.s| ==> IsDigit(r.value.s[k])) &&
        ParseNat(r.value.s[5..]) == UtmCode(lat, lon)
    {
      if "override_proj" !in base.specs then Err(KeyError)
      else if Truthy(base.specs["override_proj"]) then Ok(base.specs["override_proj"])
      else
        var code := UtmCode(lat, lon);
        var s := "EPSG:" + IntToString(code);
        assert code >= 0 ==> s[5..] == NatToString(code) && ParseNat(NatToString(code)) == code by {
          if code >= 0 {
            ParseNatToString(code);
          }
        }
        Ok(JStr(s))
    }

    predicate SkipOn()
      reads base
    {
      "skip_days" in base.specs && Truthy(base.specs["skip_days"])
    }

    /** Fewer than N_images scenes so far (N_images compared as a number). */
    predicate Below(count: nat)
      reads base
    {
      "N_images" in base.specs && AsReal(base.specs["N_images"]).Some? &&
      (count as real) < AsReal(base.specs["N_images"]).value
    }

    /** A record the loop keeps: well overlapped, and its imagery retrieved. */
    predicate Keeps(rec: Record, overlap: Record -> real, retrieves: Record -> bool)
      reads base
    {
      base.WellOverlapped(overlap(rec)) == Ok(true) && retrieves(rec)
    }

    /** The scenes are the kept records at the increasing positions `picked`. */
    predicate Picked(records: seq<Record>, scenes: seq<Scene>, picked: seq<nat>,
                     overlap: Record -> real, retrieves: Record -> bool)
      reads base
    {
      |picked| == |scenes| &&
      (forall k :: 0 <= k < |picked| ==> (picked[k] < |records| && |scenes[k]| == 1 && scenes[k][0] == records[picked[k]] &&
         Keeps(records[picked[k]], overlap, retrieves))) &&
      (forall i, j :: 0 <= i < j < |picked| ==> picked[i] < picked[j])
    }

    /** Where the loop goes on after taking the record at `i`: the next
        record, or with skip_days set the target of `_fastforward`, the
        first later record more than skip_days older (the end, `|records|`,
        when there is none). */
    predicate Resumes(records: seq<Record>, i: nat, m: nat)
      reads base
      requires i < |records|
    {
      i < m <= |records| &&
      if !SkipOn() then m == i + 1
      else
        (forall k {:trigger base.OldEnough(records[i].day, records[k].day)} ::
           i < k < m ==> !base.OldEnough(records[i].day, records[k].day)) &&
        (m < |records| ==> base.OldEnough(records[i].day, records[m].day))
    }

    /** No record in positions [a, b) is kept. */
    predicate NoneKept(records: seq<Record>, a: nat, b: nat, overlap: Record -> real, retrieves: Record -> bool)
      reads base
    {
      forall j {:trigger Keeps(records[j], overlap, retrieves)} ::
        a <= j < b && j < |records| ==> !Keeps(records[j], overlap, retrieves)
    }

    /** Where the scan went on after the last pick (the start before any). */
    function From(picked: seq<nat>, marks: seq<nat>): nat
      requires |marks| == |picked|
    {
      if picked == [] then 0 else marks[|marks| - 1]
    }

    /** The course of the scan, pick by pick: each pick is the first kept
        record from where the scan stood (the start, or where it went on
        after the previous pick), and after it the scan goes on at its
        mark (see Resumes). */
    predicate Walk(records: seq<Record>, picked: seq<nat>, marks: seq<nat>,
                   overlap: Record -> real, retrieves: Record -> bool)
      reads base
      decreases |picked|
    {
      |marks| == |picked| &&
      (picked != [] ==>
         var n := |picked| - 1;
         Walk(records, picked[..n], marks[..n], overlap, retrieves) &&
         picked[n] < |records| &&
         From(picked[..n], marks[..n]) <= picked[n] &&
         NoneKept(records, From(picked[..n], marks[..n]), picked[n], overlap, retrieves) &&
         Resumes(records, picked[n], marks[n]))
    }

    /** What the walk says about pick k: nothing kept before it since the
        previous resume point, and where the scan went on after it. */
    lemma {:induction false} WalkAt(records: seq<Record>, picked: seq<nat>, marks: seq<nat>, k: nat,
                                    overlap: Record -> real, retrieves: Record -> bool)
      requires Walk(records, picked, marks, overlap, retrieves) && k < |picked|
      ensures picked[k] < |records| && Resumes(records, picked[k], marks[k])
      ensures k == 0 ==> NoneKept(records, 0, picked[0], overlap, retrieves)
      ensures k > 0 ==> marks[k - 1] <= picked[k] && NoneKept(records, marks[k - 1], picked[k], overlap, retrieves)
      decreases |picked|
    {
      var n := |picked| - 1;
      if k < n {
        WalkAt(records, picked[..n], marks[..n], k, overlap, retrieves);
        assert picked[..n][k] == picked[k] && marks[..n][k] == marks[k];
        if k > 0 {
          assert marks[..n][k - 1] == marks[k - 1];
        }
      } else if k > 0 {
        assert From(picked[..n], marks[..n]) == marks[k - 1];
      }
    }

    /** Every kept record before position `upto` was picked. */
    predicate NoneMissed(records: seq<Record>, picked: seq<nat>, upto: nat,
                         overlap: Record -> real, retrieves: Record -> bool)
      reads base
    {
      forall j {:trigger Keeps(records[j], overlap, retrieves)} ::
        0 <= j < upto && j < |records| && Keeps(records[j], overlap, retrieves) ==> j in picked
    }

    lemma PickedSnoc(records: seq<Record>, scenes: seq<Scene>, picked: seq<nat>, i: nat,
                     overlap: Record -> real, retrieves: Record -> bool)
      requires Picked(records, scenes, picked, overlap, retrieves)
      requires i < |records| && Keeps(records[i], overlap, retrieves)
      requires |picked| > 0 ==> picked[|picked| - 1] < i
      ensures Picked(records, scenes + [[records[i]]], picked + [i], overlap, retrieves)
    {
    }

    /** Picking `i`, reached from the last resume point with nothing kept
        in between, and going on at `m`, extends the walk. */
    lemma WalkSnoc(records: seq<Record>, picked: seq<nat>, marks: seq<nat>, i: nat, m: nat,
                   overlap: Record -> real, retrieves: Record -> bool)
      requires Walk(records, picked, marks, overlap, retrieves) && i < |records|
      requires From(picked, marks) <= i && NoneKept(records, From(picked, marks), i, overlap, retrieves)
      requires Resumes(records, i, m)
      ensures Walk(records, picked + [i], marks + [m], overlap, retrieves)
    {
      assert (picked + [i])[..|picked|] == picked && (marks + [m])[..|marks|] == marks;
    }

    lemma NoneMissedStep(records: seq<Record>, picked: seq<nat>, i: nat, upto: nat,
                         overlap: Record -> real, retrieves: Record -> bool)
      requires NoneMissed(records, picked, i, overlap, retrieves) && i < upto <= |records|
      requires forall j :: i <= j < upto && Keeps(records[j], overlap, retrieves) ==> j in picked
      ensures NoneMissed(records, picked, upto, overlap, retrieves)
    {
    }

    lemma NoneMissedSnoc(records: seq<Record>, picked: seq<nat>, i: nat, upto: nat,
                         overlap: Record -> real, retrieves: Record -> bool)
      requires NoneMissed(records, picked, upto, overlap, retrieves)
      ensures NoneMissed(records, picked + [i], upto, overlap, retrieves)
    {
      forall j | 0 <= j < upto && j < |records| && Keeps(records[j], overlap, retrieves)
        ensures j in picked + [i]
      {
        assert j in picked;
      }
    }

    /** Where the scene loop stands, before looking at position `cur`
        (None once the records are used up). */
    function Upto(records: seq<Record>, cur: Option<nat>): nat {
      if cur.Some? then cur.value else |records|
    }

    /** What the scenes so far are, wherever the loop stands: kept records
        along the walk, fewer than N_images before the last was added. */
    predicate Held(records: seq<Record>, scenes: seq<Scene>, picked: seq<nat>, marks: seq<nat>,
                   overlap: Record -> real, retrieves: Record -> bool)
      reads base
    {
      Picked(records, scenes, picked, overlap, retrieves) &&
      (|scenes| > 0 ==> Below(|scenes| - 1)) &&
      Walk(records, picked, marks, overlap, retrieves)
    }

    /** Where the loop stands, at `cur`: past the last pick, nothing kept
        passed over since the last resume point, and without skip_days every
        kept record before `cur` picked. */
    predicate At(records: seq<Record>, picked: seq<nat>, marks: seq<nat>, cur: Option<nat>,
                 overlap: Record -> real, retrieves: Record -> bool)
      reads base
      requires |marks| == |picked|
    {
      (cur.Some? ==> cur.value < |records|) &&
      (cur.Some? && |picked| > 0 ==> picked[|picked| - 1] < cur.value) &&
      From(picked, marks) <= Upto(records, cur) &&
      NoneKept(records, From(picked, marks), Upto(records, cur), overlap, retrieves) &&
      (!SkipOn() ==> NoneMissed(records, picked, Upto(records, cur), overlap, retrieves))
    }

    /** The loop invariant of `_compile_scenes`. */
    predicate Scanned(records: seq<Record>, scenes: seq<Scene>, picked: seq<nat>, marks: seq<nat>, cur: Option<nat>,
                      overlap: Record -> real, retrieves: Record -> bool)
      reads base
    {
      Held(records, scenes, picked, marks, overlap, retrieves) &&
      At(records, picked, marks, cur, overlap, retrieves)
    }

    /** A record that is not kept is passed over. */
    lemma PassOver(records: seq<Record>, scenes: seq<Scene>, picked: seq<nat>, marks: seq<nat>, i: nat,
                   overlap: Record -> real, retrieves: Record -> bool)
      requires Scanned(records, scenes, picked, marks, Some(i), overlap, retrieves)
      requires !Keeps(records[i], overlap, retrieves)
      ensures Scanned(records, scenes, picked, marks, if i + 1 < |records| then Some(i + 1) else None, overlap, retrieves)
    {
      var next := if i + 1 < |records| then Some(i + 1) else None;
      assert Upto(records, next) == i + 1;
      NoneKeptStep(records, From(picked, marks), i, overlap, retrieves);
      if !SkipOn() {
        NoneMissedStep(records, picked, i, i + 1, overlap, retrieves);
      }
    }

    lemma NoneKeptStep(records: seq<Record>, a: nat, i: nat, overlap: Record -> real, retrieves: Record -> bool)
      requires a <= i < |records| && NoneKept(records, a, i, overlap, retrieves)
      requires !Keeps(records[i], overlap, retrieves)
      ensures NoneKept(records, a, i + 1, overlap, retrieves)
    {
    }

    /** Where the loop stops, the scenes meet the contract of SelectScenes. */
    lemma Stopped(records: seq<Record>, scenes: seq<Scene>, picked: seq<nat>, marks: seq<nat>, cur: Option<nat>,
                  overlap: Record -> real, retrieves: Record -> bool)
      requires Scanned(records, scenes, picked, marks, cur, overlap, retrieves)
      requires cur.None? || !Below(|scenes|)
      ensures Picked(records, scenes, picked, overlap, retrieves)
      ensures |scenes| > 0 ==> Below(|scenes| - 1)
      ensures Walk(records, picked, marks, overlap, retrieves)
      ensures Below(|picked|) ==> NoneKept(records, From(picked, marks), |records|, overlap, retrieves)
      ensures !SkipOn() && Below(|picked|) ==> NoneMissed(records, picked, |records|, overlap, retrieves)
      ensures !SkipOn() && |picked| > 0 ==> NoneMissed(records, picked, picked[|picked| - 1], overlap, retrieves)
    {
      StoppedAt(records, picked, marks, cur, |scenes|, overlap, retrieves);
    }

    /** A count that was below N_images before its last item is at most
        N_images. */
    lemma CountBound(count: nat)
      requires count > 0 ==> Below(count - 1)
      ensures "N_images" in base.specs && base.specs["N_images"].JInt? ==> count <= Max(0, base.specs["N_images"].i)
    {
    }

    /** Where the loop stops, nothing kept after the last resume point was
        left, unless N_images scenes were reached. */
    lemma StoppedAt(records: seq<Record>, picked: seq<nat>, marks: seq<nat>, cur: Option<nat>, count: nat,
                    overlap: Record -> real, retrieves: Record -> bool)
      requires |marks| == |picked| && count == |picked|
      requires At(records, picked, marks, cur, overlap, retrieves) && Walk(records, picked, marks, overlap, retrieves)
      requires cur.None? || !Below(count)
      ensures Below(|picked|) ==> NoneKept(records, From(picked, marks), |records|, overlap, retrieves)
      ensures !SkipOn() && Below(|picked|) ==> NoneMissed(records, picked, |records|, overlap, retrieves)
      ensures !SkipOn() && |picked| > 0 ==> NoneMissed(records, picked, picked[|picked| - 1], overlap, retrieves)
    {
      if !SkipOn() && |picked| > 0 {
        WalkAt(records, picked, marks, |picked| - 1, overlap, retrieves);
      }
    }

    /** Taking the record at `i`, the first kept one since the last resume
        point, and going on at `m` keeps what the scenes are. */
    lemma TakeHeld(records: seq<Record>, scenes: seq<Scene>, picked: seq<nat>, marks: seq<nat>, i: nat, m: nat,
                   overlap: Record -> real, retrieves: Record -> bool)
      requires Held(records, scenes, picked, marks, overlap, retrieves)
      requires i < |records| && Keeps(records[i], overlap, retrieves) && Below(|scenes|)
      requires |picked| > 0 ==> picked[|picked| - 1] < i
      requires From(picked, marks) <= i && NoneKept(records, From(picked, marks), i, overlap, retrieves)
      requires Resumes(records, i, m)
      ensures Held(records, scenes + [[records[i]]], picked + [i], marks + [m], overlap, retrieves)
    {
      PickedSnoc(records, scenes, picked, i, overlap, retrieves);
      WalkSnoc(records, picked, marks, i, m, overlap, retrieves);
    }

    /** After taking the record at `i` the loop stands at its resume point
        `m`, with nothing passed over since. */
    lemma TakeAt(records: seq<Record>, picked: seq<nat>, marks: seq<nat>, i: nat, m: nat,
                 overlap: Record -> real, retrieves: Record -> bool)
      requires |marks| == |picked| && i < |records| && Resumes(records, i, m)
      requires !SkipOn() ==> NoneMissed(records, picked, i, overlap, retrieves)
      ensures At(records, picked + [i], marks + [m], if m < |records| then Some(m) else None, overlap, retrieves)
    {
      var picked', marks' := picked + [i], marks + [m];
      var next := if m < |records| then Some(m) else None;
      assert From(picked', marks') == m == Upto(records, next);
      if !SkipOn() {
        NoneMissedSnoc(records, picked, i, i, overlap, retrieves);
        NoneMissedStep(records, picked', i, i + 1, overlap, retrieves);
      }
    }

    /** Where the loop goes on after keeping the record at `i`: the next
        record, or with skip_days set, the fast-forward target (the end
        when no later record is more than skip_days older). The
        fast-forward fails as `_fastforward` does once it has a record to
        compare and skip_days is not a number. */
    method ResumePoint(records: seq<Record>, i: nat) returns (r: Result<nat>)
      requires i < |records|
      ensures r.Err? <==> SkipOn() && i + 1 < |records| && !base.SkipDaysSet()
      ensures r.Err? ==> r.error == TypeError
      ensures r.Ok? ==> Resumes(records, i, r.value)
    {
      if !SkipOn() {
        return Ok(i + 1);
      }
      var ff := base.Fastforward(records, i + 1, records[i].day, DayOf);
      if ff.Err? {
        return Err(ff.error);
      }
      r := Ok(if ff.value.0.Some? then ff.value.1 - 1 else |records|);
    }

    /** One kept record becomes a scene, and the loop goes on at its
        resume point `m` (none past the last record). */
    method Take(records: seq<Record>, scenes: seq<Scene>, ghost picked: seq<nat>, ghost marks: seq<nat>, i: nat, m: nat,
                overlap: Record -> real, retrieves: Record -> bool)
      returns (next: Option<nat>, scenes': seq<Scene>, ghost picked': seq<nat>, ghost marks': seq<nat>)
      requires Scanned(records, scenes, picked, marks, Some(i), overlap, retrieves)
      requires Keeps(records[i], overlap, retrieves) && Below(|scenes|) && Resumes(records, i, m)
      ensures scenes' == scenes + [[records[i]]] && picked' == picked + [i]
      ensures next == if m < |records| then Some(m) else None
      ensures Scanned(records, scenes', picked', marks', next, overlap, retrieves)
    {
      scenes' := scenes + [[records[i]]];
      picked' := picked + [i];
      TakeHeld(records, scenes, picked, marks, i, m, overlap, retrieves);
      TakeAt(records, picked, marks, i, m, overlap, retrieves);
      marks' := marks + [m];
      next := if m < |records| then Some(m) else None;
    }

    /** The exception the scene loop raises on specs it cannot read: the
        overlap test comes first, KeyError without min_intersect and
        TypeError for one that is not a number; otherwise the fast-forward
        fails on a skip_days that is not a number (TypeError). */
    function OverlapOrSkipError(): Error
      reads base
    {
      if "min_intersect" !in base.specs then KeyError else TypeError
    }

    /** Some record other than the last one is kept. */
    predicate KeptBeforeLast(records: seq<Record>, overlap: Record -> real, retrieves: Record -> bool)
      reads base
    {
      exists j {:trigger Keeps(records[j], overlap, retrieves)} ::
        0 <= j < |records| - 1 && Keeps(records[j], overlap, retrieves)
    }

    /** The scene loop fails, for a numeric N_images: once it looks at a
        record (there is one, and N_images is above 0) the overlap test
        needs a numeric min_intersect, and with a truthy skip_days that is
        not a number, the fast-forward after the first kept record fails
        unless that record is the last. */
    predicate ScanFails(records: seq<Record>, overlap: Record -> real, retrieves: Record -> bool)
      reads base
    {
      records != [] && Below(0) &&
      (base.WellOverlapped(0.0).Err? || (SkipOn() && !base.SkipDaysSet() && KeptBeforeLast(records, overlap, retrieves)))
    }

    /** Where the loop stops on specs it could read, it did not have to
        fail: with a skip_days that is not a number, nothing before the
        last record was kept. */
    lemma NoScanFailure(records: seq<Record>, picked: seq<nat>, marks: seq<nat>, cur: Option<nat>,
                        overlap: Record -> real, retrieves: Record -> bool)
      requires |marks| == |picked| && Walk(records, picked, marks, overlap, retrieves)
      requires At(records, picked, marks, cur, overlap, retrieves)
      requires records != [] && Below(0) ==> base.WellOverlapped(0.0).Ok?
      requires Below(0) && SkipOn() && !base.SkipDaysSet() ==> (picked == [] && cur.None?) || picked == [|records| - 1]
      ensures !ScanFails(records, overlap, retrieves)
    {
      if records != [] && Below(0) && SkipOn() && !base.SkipDaysSet() && picked != [] {
        WalkAt(records, picked, marks, 0, overlap, retrieves);
      }
    }

    /** One record of the scene loop: kept and taken, or passed over. */
    method Visit(records: seq<Record>, scenes: seq<Scene>, ghost picked: seq<nat>, ghost marks: seq<nat>, i: nat,
                 overlap: Record -> real, retrieves: Record -> bool)
      returns (r: Result<Option<nat>>, scenes': seq<Scene>, ghost picked': seq<nat>, ghost marks': seq<nat>)
      requires Scanned(records, scenes, picked, marks, Some(i), overlap, retrieves) && Below(|scenes|)
      ensures r.Err? <==>
        base.WellOverlapped(0.0).Err? ||
        (Keeps(records[i], overlap, retrieves) && SkipOn() && i + 1 < |records| && !base.SkipDaysSet())
      ensures r.Err? ==> r.error == OverlapOrSkipError()
      ensures r.Ok? ==> picked' == if Keeps(records[i], overlap, retrieves) then picked + [i] else picked
      ensures r.Ok? && r.value.Some? ==> i < r.value.value
      ensures r.Ok? ==> Scanned(records, scenes', picked', marks', r.value, overlap, retrieves)
    {
      scenes', picked', marks' := scenes, picked, marks;
      var ok :- base.WellOverlapped(overlap(records[i]));
      if ok && retrieves(records[i]) {
        var resume := ResumePoint(records, i);
        if resume.Err? {
          return Err(resume.error), scenes', picked', marks';
        }
        var next;
        next, scenes', picked', marks' := Take(records, scenes, picked, marks, i, resume.value, overlap, retrieves);
        r := Ok(next);
      } else {
        PassOver(records, scenes, picked, marks, i, overlap, retrieves);
        r, scenes', picked', marks' := Ok(if i + 1 < |records| then Some(i + 1) else None), scenes, picked, marks;
      }
    }

    /** The invariant of the walk: every record before `cur` got through
        the specs (the overlap test from the first record on; with a
        skip_days that is not a number, a kept record only as the last). */
    ghost predicate ScanState(records: seq<Record>, scenes: seq<Scene>, picked: seq<nat>, marks: seq<nat>,
                              cur: Option<nat>, overlap: Record -> real, retrieves: Record -> bool)
      reads base
    {
      (cur == Some(0) ==> scenes == []) &&
      (records != [] && cur != Some(0) ==> base.WellOverlapped(0.0).Ok?) &&
      (SkipOn() && !base.SkipDaysSet() ==> picked == [] || (cur.None? && picked == [|records| - 1])) &&
      Scanned(records, scenes, picked, marks, cur, overlap, retrieves)
    }

    /** One round of the walk, at record `i` with room for a scene: it
        fails only where the specs make the whole walk fail. */
    method Round(records: seq<Record>, scenes: seq<Scene>, ghost picked: seq<nat>, ghost marks: seq<nat>, i: nat,
                 overlap: Record -> real, retrieves: Record -> bool)
      returns (r: Result<Option<nat>>, scenes': seq<Scene>, ghost picked': seq<nat>, ghost marks': seq<nat>)
      requires ScanState(records, scenes, picked, marks, Some(i), overlap, retrieves) && Below(|scenes|)
      ensures r.Err? ==> ScanFails(records, overlap, retrieves) && r.error == OverlapOrSkipError()
      ensures r.Ok? && r.value.Some? ==> i < r.value.value
      ensures r.Ok? ==> ScanState(records, scenes', picked', marks', r.value, overlap, retrieves)
    {
      r, scenes', picked', marks' := Visit(records, scenes, picked, marks, i, overlap, retrieves);
      assert Below(0);
    }

    /** The walk over the records, below a numeric N_images `limit`: it
        fails exactly as the specs make it fail, and otherwise stops where
        the records or the room for scenes run out. */
    method Scan(records: seq<Record>, limit: real, overlap: Record -> real, retrieves: Record -> bool)
      returns (r: Result<seq<Scene>>, ghost picked: seq<nat>, ghost marks: seq<nat>, cur: Option<nat>)
      requires records != [] ==> "N_images" in base.specs && AsReal(base.specs["N_images"]) == Some(limit)
      ensures r.Err? <==> ScanFails(records, overlap, retrieves)
      ensures r.Err? ==> r.error == OverlapOrSkipError()
      ensures r.Ok? ==> Scanned(records, r.value, picked, marks, cur, overlap, retrieves)
      ensures r.Ok? ==> cur.None? || !Below(|r.value|)
    {
      var scenes: seq<Scene> := [];
      picked := [];
      marks := [];
      cur := if records != [] then Some(0) else None;
      while cur.Some? && (|scenes| as real) < limit
        invariant ScanState(records, scenes, picked, marks, cur, overlap, retrieves)
        decreases |records| - Upto(records, cur)
      {
        var next;
        next, scenes, picked, marks := Round(records, scenes, picked, marks, cur.value, overlap, retrieves);
        if next.Err? {
          return Err(next.error), picked, marks, cur;
        }
        cur := next.value;
      }
      NoScanFailure(records, picked, marks, cur, overlap, retrieves);
      r := Ok(scenes);
    }

    /**
     * The loop of `_compile_scenes`: walk the records (newest first, as
     * `_search` sorts them) while fewer than N_images scenes are held; keep
     * a well-overlapped record as a one-record scene when its imagery is
     * retrieved, skip it otherwise; after a kept record with skip_days
     * set, fast-forward to the first record more than skip_days older. The
     * ghost `picked` gives the positions of the kept records. Without
     * skip_days, the scenes are exactly the first kept records.
     */
    method SelectScenes(records: seq<Record>, overlap: Record -> real, retrieves: Record -> bool)
      returns (r: Result<seq<Scene>>, ghost picked: seq<nat>, ghost marks: seq<nat>)
      ensures "N_images" !in base.specs ==> r == Err(KeyError)
      ensures records == [] && "N_images" in base.specs ==> r == Ok([])
      ensures records != [] && "N_images" in base.specs && AsReal(base.specs["N_images"]).None? ==> r == Err(TypeError)
      ensures r.Ok? && r.value != [] ==> Below(|r.value| - 1)
      ensures r.Ok? && "N_images" in base.specs && base.specs["N_images"].JInt? ==> |r.value| <= Max(0, base.specs["N_images"].i)
      ensures r.Ok? ==> Picked(records, r.value, picked, overlap, retrieves)
      ensures r.Ok? ==> Walk(records, picked, marks, overlap, retrieves)
      ensures r.Ok? && Below(|picked|) ==> NoneKept(records, From(picked, marks), |records|, overlap, retrieves)
      ensures r.Ok? && !SkipOn() && Below(|picked|) ==> NoneMissed(records, picked, |records|, overlap, retrieves)
      ensures r.Ok? && !SkipOn() && |picked| > 0 ==>
        NoneMissed(records, picked, picked[|picked| - 1], overlap, retrieves)
      ensures "N_images" in base.specs && AsReal(base.specs["N_images"]).Some? ==>
        (r.Err? <==> ScanFails(records, overlap, retrieves)) && (r.Err? ==> r.error == OverlapOrSkipError())
    {
      // The specs do not change inside the loop, so the N_images that the
      // loop condition reads on every round is read once: a KeyError when
      // it is missing (raised at the latest by the closing message), a
      // TypeError when it is not a number and there is a record to compare.
      if "N_images" !in base.specs {
        return Err(KeyError), [], [];
      }
      var limit := 0.0;
      if records != [] {
        var n := AsReal(base.specs["N_images"]);
        if n.None? {
          return Err(TypeError), [], [];
        }
        limit := n.value;
      }
      var scenes, cur;
      scenes, picked, marks, cur := Scan(records, limit, overlap, retrieves);
      if scenes.Err? {
        return Err(scenes.error), picked, marks;
      }
      Stopped(records, scenes.value, picked, marks, cur, overlap, retrieves);
      CountBound(|scenes.value|);
      r := Ok(scenes.value);
    }

    /**
     * `_compile_scenes`: record the projection in the specs under 'proj',
     * then run the scene loop. The centroid of the box is (lat, lon).
     */
    method CompileScenes(records: seq<Record>, lat: real, lon: real,
                         overlap: Record -> real, retrieves: Record -> bool)
      returns (r: Result<seq<Scene>>, ghost picked: seq<nat>, ghost marks: seq<nat>)
      modifies base
      ensures old(Projection(lat, lon)).Err? ==> r == Err(KeyError) && base.specs == old(base.specs)
      ensures old(Projection(lat, lon)).Ok? ==> base.specs == old(base.specs)["proj" := old(Projection(lat, lon)).value]
      ensures old(Projection(lat, lon)).Ok? && "N_images" !in old(base.specs) ==> r == Err(KeyError)
      ensures old(Projection(lat, lon)).Ok? && "N_images" in old(base.specs) && records == [] ==> r == Ok([])
      ensures r.Ok? && r.value != [] ==> Below(|r.value| - 1)
      ensures r.Ok? ==> Picked(records, r.value, picked, overlap, retrieves)
      ensures r.Ok? ==> Walk(records, picked, marks, overlap, retrieves)
      ensures r.Ok? && Below(|picked|) ==> NoneKept(records, From(picked, marks), |records|, overlap, retrieves)
      ensures r.Ok? && !SkipOn() && Below(|picked|) ==> NoneMissed(records, picked, |records|, overlap, retrieves)
      ensures r.Ok? && !SkipOn() && |picked| > 0 ==>
        NoneMissed(records, picked, picked[|picked| - 1], overlap, retrieves)
      ensures r.Ok? && "N_images" in base.specs && base.specs["N_images"].JInt? ==> |r.value| <= Max(0, base.specs["N_images"].i)
      ensures (old(Projection(lat, lon)).Ok? && records != [] && "N_images" in base.specs &&
               AsReal(base.specs["N_images"]).None?) ==> r == Err(TypeError)
      ensures old(Projection(lat, lon)).Ok? && "N_images" in base.specs && AsReal(base.specs["N_images"]).Some? ==>
        (r.Err? <==> ScanFails(records, overlap, retrieves)) && (r.Err? ==> r.error == OverlapOrSkipError())
    {
      var proj := Projection(lat, lon);
      if proj.Err? {
        return Err(proj.error), [], [];
      }
      base.specs := base.specs["proj" := proj.value];
      r, picked, marks := SelectScenes(records, overlap, retrieves);
    }
  }

  /** Catalog records newest first, as the search sorts them. */
  predicate NewestFirst(records: seq<Record>) {
    forall i, j :: 0 <= i < j < |records| ==> records[i].day >= records[j].day
  }

  /** On records sorted newest first, consecutive scenes taken with
      skip_days set are more than skip_days apart. */
  lemma SpacedApart(g: DgGrabber, records: seq<Record>, picked: seq<nat>, marks: seq<nat>, k: nat,
                    overlap: Record -> real, retrieves: Record -> bool)
    requires NewestFirst(records) && g.SkipOn() && g.Walk(records, picked, marks, overlap, retrieves)
    requires k + 1 < |picked|
    ensures picked[k] < picked[k + 1] < |records|
    ensures g.base.OldEnough(records[picked[k]].day, records[picked[k + 1]].day)
  {
    g.WalkAt(records, picked, marks, k, overlap, retrieves);
    g.WalkAt(records, picked, marks, k + 1, overlap, retrieves);
    assert records[marks[k]].day >= records[picked[k + 1]].day;
  }
}
