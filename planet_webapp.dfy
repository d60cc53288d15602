/**
 * The web app's Planet grabber. It shares the day grouping and the overlap
 * and copy filters of the Planet module. It differs in how landcover
 * indices adjust the specs, in checking the asset type against the band
 * map, in how scenes are collected, in file names, and in how downloaded
 * paths are put back in record order.
 */
module PlanetWebapp {
  import opened Wrappers
  import opened Json
  import opened Py
  import opened Grabber
  import opened Planet

  /** Band numbers (red, green, blue, near infrared) per item type and asset type. */
  const BandMap: map<string, map<string, seq<int>>> := map[
    "PSScene3Band" := map["visual" := [1, 2, 3], "analytic" := [1, 2, 3]],
    "PSScene4Band" := map["analytic" := [3, 2, 1, 4]],
    "PSOrthoTile" := map["visual" := [1, 2, 3], "analytic" := [3, 2, 1, 4]],
    "REOrthoTile" := map["visual" := [1, 2, 3], "analytic" := [3, 2, 1, 5]],
    "SkySatScene" := map["ortho_visual" := [3, 2, 1], "analytic" := [3, 2, 1, 4]]]

  // ----- _validate_asset_type -------------------------------------------------

  /** The band map offers `asset` for item type `x`. */
  predicate Offered(asset: Json, x: Json) {
    x.JStr? && x.s in BandMap && asset.JStr? && asset.s in BandMap[x.s]
  }

  /** The values `for item_type in item_types` visits: a list's items, a
      string's characters, a dict's keys. */
  function Members(j: Json): set<Json>
  {
    match j
    case JList(xs) => set x | x in xs
    case JStr(s) => set c | c in s :: JStr([c])
    case JObj(m) => set k | k in m :: JStr(k)
    case _ => {}
  }

  /** The loop over a list of item types: the first item type the band map
      does not know, or that lacks the asset type, raises KeyError; a list
      or dict cannot be looked up at all (TypeError). */
  function CheckItems(asset: Json, items: seq<Json>): (r: Result<()>)
    ensures r.Ok? <==> forall x :: x in items ==> Offered(asset, x)
    ensures r.Err? ==> r.error == KeyError || r.error == TypeError
  {
    if items == [] then Ok(())
    else
      assert items == [items[0]] + items[1..];
      var x := items[0];
      assert x in items;
      if x.JList? || x.JObj? then Err(TypeError)
      else if !Offered(asset, x) then Err(KeyError)
      else CheckItems(asset, items[1..])
  }

  /**
   * `_validate_asset_type`: every item type must offer the asset type in
   * the band map. A string of item types is iterated by its characters and
   * a dict by its keys; neither can hit an unhashable member, so they fail
   * with KeyError alone. Anything else is not iterable.
   */
  function ValidateAssetType(specs: map<string, Json>): (r: Result<()>)
    ensures "asset_type" !in specs || "item_types" !in specs ==> r == Err(KeyError)
    ensures r.Ok? <==>
      "asset_type" in specs && "item_types" in specs &&
      (specs["item_types"].JList? || specs["item_types"].JStr? || specs["item_types"].JObj?) &&
      forall x :: x in Members(specs["item_types"]) ==> Offered(specs["asset_type"], x)
    ensures ("asset_type" in specs && "item_types" in specs &&
      !(specs["item_types"].JList? || specs["item_types"].JStr? || specs["item_types"].JObj?)) ==> r == Err(TypeError)
    ensures r.Err? ==> r.error == KeyError || r.error == TypeError
  {
    if "asset_type" !in specs || "item_types" !in specs then Err(KeyError)
    else
      var asset := specs["asset_type"];
      match specs["item_types"]
      case JList(xs) => CheckItems(asset, xs)
      case JStr(s) => if forall c :: c in s ==> Offered(asset, JStr([c])) then Ok(()) else Err(KeyError)
      case JObj(m) => if forall k :: k in m ==> Offered(asset, JStr(k)) then Ok(()) else Err(KeyError)
      case _ => Err(TypeError)
  }

  /** Every item type in the band map offers the analytic asset. */
  lemma AnalyticOffered(x: Json)
    requires x.JStr? && x.s in BandMap
    ensures Offered(JStr("analytic"), x)
  {
  }

  // ----- _tweak_landcover_specs -------------------------------------------------

  /** `'PSScene3Band' in item_types`: list membership, substring or dict key;
      numbers, bools and None support no `in` (TypeError). */
  function HasThreeBand(items: Json): (r: Result<bool>)
    ensures r.Err? <==> !(items.JList? || items.JStr? || items.JObj?)
    ensures r.Err? ==> r.error == TypeError
    ensures items.JList? ==> r == Ok(JStr("PSScene3Band") in items.items)
  {
    match items
    case JList(xs) => Ok(JStr("PSScene3Band") in xs)
    case JStr(s) => Ok(Contains(s, "PSScene3Band"))
    case JObj(m) => Ok("PSScene3Band" in m)
    case _ => Err(TypeError)
  }

  /** The item types once the first PSScene3Band is removed and
      PSScene4Band appended, before deduplication. */
  function FourBandSwap(xs: seq<Json>): (r: seq<Json>)
    requires JStr("PSScene3Band") in xs
    ensures |r| == |xs| && r[|r| - 1] == JStr("PSScene4Band")
    ensures multiset(r) == multiset(xs) - multiset{JStr("PSScene3Band")} + multiset{JStr("PSScene4Band")}
  {
    RemoveFirst(xs, JStr("PSScene3Band")) + [JStr("PSScene4Band")]
  }

  /** `items` is a list holding each member of `xs` exactly once. */
  ghost predicate Deduplicated(items: Json, xs: seq<Json>) {
    items.JList? && Distinct(items.items) && forall y :: y in items.items <==> y in xs
  }

  /**
   * What `_tweak_landcover_specs` does to the specs. With PSScene3Band
   * among the item types, a list has its first PSScene3Band swapped for
   * PSScene4Band (in place, so the swap stays when the deduplication
   * through `set()` fails on an unhashable member) and is then
   * deduplicated; a string or dict has no `remove` (AttributeError) and
   * numbers, bools and None support no `in` (TypeError). Afterwards the
   * asset type becomes analytic, or KeyError when it is missing. No other
   * key changes.
   */
  ghost predicate Tweaked(before: map<string, Json>, after: map<string, Json>, r: Result<()>) {
    if "item_types" !in before then r == Err(KeyError) && after == before
    else
      var items := before["item_types"];
      match HasThreeBand(items)
      case Err(_) => r == Err(TypeError) && after == before
      case Ok(present) =>
        if present && !items.JList? then r == Err(AttributeError) && after == before
        else if present && !Hashable(FourBandSwap(items.items)) then
          r == Err(TypeError) && after == before["item_types" := JList(FourBandSwap(items.items))]
        else
          after.Keys == before.Keys &&
          (forall k :: k in before && k != "asset_type" && k != "item_types" ==> after[k] == before[k]) &&
          (present ==> Deduplicated(after["item_types"], FourBandSwap(items.items))) &&
          (!present ==> after["item_types"] == items) &&
          if "asset_type" in before then r == Ok(()) && after["asset_type"] == JStr("analytic")
          else r == Err(KeyError)
  }

  /** `_tweak_landcover_specs`, step by step on a specs dictionary. */
  method TweakSpecs(specs: map<string, Json>) returns (after: map<string, Json>, r: Result<()>)
    ensures Tweaked(specs, after, r)
  {
    after := specs;
    if "item_types" !in after {
      return after, Err(KeyError);
    }
    var items := after["item_types"];
    var present := HasThreeBand(items);
    if present.Err? {
      return after, Err(TypeError);
    }
    if present.value {
      if !items.JList? {
        return after, Err(AttributeError);
      }
      var xs := RemoveFirst(items.items, JStr("PSScene3Band")) + [JStr("PSScene4Band")];
      after := after["item_types" := JList(xs)];
      if !Hashable(xs) {
        return after, Err(TypeError);
      }
      var ys := Enumerate(set x | x in xs);
      after := after["item_types" := JList(ys)];
    }
    if "asset_type" !in after {
      return after, Err(KeyError);
    }
    if after["asset_type"] != JStr("analytic") {
      after := after["asset_type" := JStr("analytic")];
    }
    return after, Ok(());
  }

  /** `set()` needs hashable members: no lists or dicts. */
  predicate Hashable(xs: seq<Json>) {
    forall x :: x in xs ==> !x.JList? && !x.JObj?
  }

  /** A tweak that succeeds on a list of item types the band map knows
      leaves specs that pass the asset type check: the swap only removes
      entries and adds PSScene4Band, and every known type offers the
      analytic asset. */
  lemma {:induction false} TweakedValidates(before: map<string, Json>, after: map<string, Json>)
    requires Tweaked(before, after, Ok(()))
    requires "item_types" in before && before["item_types"].JList?
    requires forall x :: x in before["item_types"].items ==> x.JStr? && x.s in BandMap
    ensures ValidateAssetType(after).Ok?
  {
    var items := before["item_types"];
    var xs := items.items;
    assert HasThreeBand(items) == Ok(JStr("PSScene3Band") in xs);
    assert "asset_type" in before && after["asset_type"] == JStr("analytic");
    if JStr("PSScene3Band") in xs {
      assert Deduplicated(after["item_types"], FourBandSwap(xs));
      forall y | y in after["item_types"].items
        ensures Offered(JStr("analytic"), y)
      {
        if y != JStr("PSScene4Band") {
          SwapMembers(xs, y);
        }
      }
    } else {
      assert after["item_types"] == items;
    }
  }

  /** The swap brings in no item type but PSScene4Band. */
  lemma SwapMembers(xs: seq<Json>, y: Json)
    requires JStr("PSScene3Band") in xs && y in FourBandSwap(xs) && y != JStr("PSScene4Band")
    ensures y in xs
  {
    assert multiset(FourBandSwap(xs))[y] > 0;
  }

  /**
   * The web app's Planet grabber: a PlanetGrabber whose specs live in
   * `core.base`, with its own scene collection and spec checks.
   */
  class WebappPlanetGrabber {
    const core: PlanetGrabber

    constructor(core: PlanetGrabber)
      ensures this.core == core
    {
      this.core := core;
    }

    /** `_tweak_landcover_specs` on the grabber's specs: see Tweaked. */
    method TweakLandcoverSpecs() returns (r: Result<()>)
      modifies core.base
      ensures Tweaked(old(core.base.specs), core.base.specs, r)
    {
      var after;
      after, r := TweakSpecs(core.base.specs);
      core.base.specs := after;
    }

    /** The spec checks of `__init__`: the landcover tweak when indices are
        requested (its outcome, and the specs it leaves, as Tweaked says),
        then the asset type check on the tweaked specs. */
    method Initialize() returns (r: Result<()>)
      modifies core.base
      ensures "landcover_indices" !in old(core.base.specs) ==> r == Err(KeyError)
      ensures "landcover_indices" in old(core.base.specs) && Truthy(old(core.base.specs)["landcover_indices"]) ==>
        exists t :: Tweaked(old(core.base.specs), core.base.specs, t) &&
          r == if t.Err? then t else ValidateAssetType(core.base.specs)
      ensures r.Ok? ==> ValidateAssetType(core.base.specs).Ok?
      ensures r.Ok? && Truthy(old(core.base.specs)["landcover_indices"]) ==> core.base.specs["asset_type"] == JStr("analytic")
      ensures "landcover_indices" in old(core.base.specs) && !Truthy(old(core.base.specs)["landcover_indices"]) ==>
        core.base.specs == old(core.base.specs) && r == ValidateAssetType(core.base.specs)
    {
      if "landcover_indices" !in core.base.specs {
        return Err(KeyError);
      }
      if Truthy(core.base.specs["landcover_indices"]) {
        var t := TweakLandcoverSpecs();
        if t.Err? {
          return t;
        }
      }
      r := ValidateAssetType(core.base.specs);
    }

    // _compile_scenes

    /** `scenes[:N_images]` needs an integer bound (a bool counts as 0 or 1). */
    function SliceBound(n: Json): (r: Result<int>)
      ensures r.Ok? <==> n.JInt? || n.JBool?
      ensures r.Ok? ==> AsReal(n) == Some(r.value as real)
    {
      match n
      case JInt(i) => Ok(i)
      case JBool(b) => Ok(if b then 1 else 0)
      case _ => Err(TypeError)
    }

    /**
     * One day of `_compile_scenes`: with skip_days set and scenes found, the
     * first is appended; otherwise all are, and the list is cut to
     * N_images.
     */
    method AddDayScenes(scenes: seq<Scene>, grouped: seq<Scene>, nImages: real) returns (r: Result<seq<Scene>>)
      requires "N_images" in core.base.specs && AsReal(core.base.specs["N_images"]) == Some(nImages)
      requires (|scenes| as real) < nImages
      ensures r.Err? ==> r == Err(TypeError) && SliceBound(core.base.specs["N_images"]).Err?
      ensures r.Ok? ==> |scenes| <= |r.value| <= |scenes| + |grouped| && r.value[..|scenes|] == scenes
      ensures r.Ok? ==> forall j :: |scenes| <= j < |r.value| ==> r.value[j] == grouped[j - |scenes|]
      ensures r.Ok? ==> forall s :: s in r.value ==> s in scenes || s in grouped
      ensures r.Ok? ==> r.value == [] || ((|r.value| - 1) as real) < nImages
      ensures r.Ok? && SliceBound(core.base.specs["N_images"]).Ok? ==> |r.value| <= SliceBound(core.base.specs["N_images"]).value
      ensures r.Ok? && core.SkipOn() ==> |r.value| <= |scenes| + 1
      ensures r.Ok? ==> DayTaken(scenes, grouped, r.value, nImages, core.SkipOn())
    {
      if core.SkipOn() && grouped != [] {
        return Ok(scenes + [grouped[0]]);
      }
      var cap := SliceBound(core.base.specs["N_images"]);
      if cap.Err? {
        return Err(TypeError);
      }
      var all := scenes + grouped;
      var kept := all[..Min(cap.value, |all|)];
      assert forall s :: s in kept ==> s in all;
      assert all == scenes + DayTake(grouped, core.SkipOn());
      assert kept[..|scenes|] == scenes;
      return Ok(kept);
    }

    /** One pass of the web app's `_compile_scenes` loop: the day at
        `first` is visited and its scenes added, and the loop moves on to
        the next day. */
    method CompileDay(records: seq<Rec>, overlap: Scene -> real, nImages: real, scenes: seq<Scene>, first: nat,
                      ghost days: seq<nat>, ghost picks: seq<seq<Scene>>)
      returns (r: Result<(seq<Scene>, Option<nat>)>, ghost days': seq<nat>, ghost picks': seq<seq<Scene>>)
      requires "N_images" in core.base.specs && AsReal(core.base.specs["N_images"]) == Some(nImages)
      requires core.Looped(records, overlap, nImages, scenes, Some(first), days, picks) && (|scenes| as real) < nImages
      ensures core.DayFails(records, first) ==> r == Err(core.DayError(records, first))
      ensures r.Err? && !core.DayFails(records, first) ==> r == Err(TypeError) && SliceBound(core.base.specs["N_images"]).Err?
      ensures r.Ok? ==> core.Looped(records, overlap, nImages, r.value.0, r.value.1, days', picks')
      ensures r.Ok? ==> days' == days + [first]
      ensures r.Ok? && r.value.1.Some? ==> first < r.value.1.value && core.Readable()
    {
      days', picks' := days, picks;
      var day := core.DayScenes(records, first, overlap);
      if day.Err? {
        return Err(day.error), days', picks';
      }
      var grouped := day.value.0;
      var next := day.value.1;
      var added := AddDay(records, overlap, nImages, scenes, first, days, picks, grouped, next);
      if added.Err? {
        return Err(added.error), days', picks';
      }
      days', picks' := days + [first], picks + [grouped];
      r := Ok((added.value, next));
    }

    /** The found day's scenes added after those so far: the loop state is
        kept and a next day can be read, or the cut to N_images fails. */
    method AddDay(records: seq<Rec>, overlap: Scene -> real, nImages: real, scenes: seq<Scene>, first: nat,
                  ghost days: seq<nat>, ghost picks: seq<seq<Scene>>, grouped: seq<Scene>, next: Option<nat>)
      returns (r: Result<seq<Scene>>)
      requires "N_images" in core.base.specs && AsReal(core.base.specs["N_images"]) == Some(nImages)
      requires core.Looped(records, overlap, nImages, scenes, Some(first), days, picks) && (|scenes| as real) < nImages
      requires core.DayFound(records, overlap, first, grouped, next) && !core.DayFails(records, first)
      ensures r.Err? ==> r == Err(TypeError) && SliceBound(core.base.specs["N_images"]).Err?
      ensures r.Ok? ==> core.Looped(records, overlap, nImages, r.value, next, days + [first], picks + [grouped])
      ensures r.Ok? && next.Some? ==> first < next.value && core.Readable()
    {
      core.ReadableAfter(records, first, next);
      r := AddDayScenes(scenes, grouped, nImages);
      if r.Ok? {
        core.DayStep(records, overlap, nImages, scenes, first, days, picks, grouped, next, r.value);
      }
    }

    /** The invariant of the web app's day loop: the walk so far, and
        once a day is done, the specs have let the first day through. */
    ghost predicate Walking(records: seq<Rec>, overlap: Scene -> real, nImages: real, scenes: seq<Scene>,
                            next: Option<nat>, days: seq<nat>, picks: seq<seq<Scene>>)
      reads core, core.base
    {
      core.Looped(records, overlap, nImages, scenes, next, days, picks) &&
      (days == [] ==> next == Some(0) && scenes == []) &&
      (days != [] ==> !core.DayFails(records, 0)) &&
      (days != [] && next.Some? ==> core.Readable())
    }

    /** One round of the day loop: a later day cannot fail but on the
        slice bound, and the first fails as its specs make it. */
    method NextDay(records: seq<Rec>, overlap: Scene -> real, nImages: real, scenes: seq<Scene>, first: nat,
                   ghost days: seq<nat>, ghost picks: seq<seq<Scene>>)
      returns (r: Result<(seq<Scene>, Option<nat>)>, ghost days': seq<nat>, ghost picks': seq<seq<Scene>>)
      requires "N_images" in core.base.specs && AsReal(core.base.specs["N_images"]) == Some(nImages)
      requires Walking(records, overlap, nImages, scenes, Some(first), days, picks) && (|scenes| as real) < nImages
      ensures r.Err? ==> 0.0 < nImages
      ensures core.DayFails(records, 0) && r.Err? ==> r == Err(core.DayError(records, 0))
      ensures core.DayFails(records, 0) ==> r.Err?
      ensures r.Err? && !core.DayFails(records, 0) ==> r == Err(TypeError) && SliceBound(core.base.specs["N_images"]).Err?
      ensures r.Ok? ==> Walking(records, overlap, nImages, r.value.0, r.value.1, days', picks')
      ensures r.Ok? && r.value.1.Some? ==> first < r.value.1.value
    {
      r, days', picks' := CompileDay(records, overlap, nImages, scenes, first, days, picks);
      if r.Err? && days != [] {
        assert !core.DayFails(records, first);
      }
    }

    /** The loop of the web app's `_compile_scenes`, for a numeric N_images. */
    method CollectScenes(records: seq<Rec>, overlap: Scene -> real, nImages: real)
      returns (r: Result<seq<Scene>>, ghost days: seq<nat>, ghost picks: seq<seq<Scene>>)
      requires records != []
      requires "N_images" in core.base.specs && AsReal(core.base.specs["N_images"]) == Some(nImages)
      ensures r.Ok? ==> r.value == [] || ((|r.value| - 1) as real) < nImages
      ensures r.Ok? ==> forall s :: s in r.value ==> core.Compiled(records, s, overlap)
      ensures r.Ok? && core.SkipOn() && NewestFirst(records) ==> Decreasing(r.value)
      ensures r.Ok? ==> core.Gathers(records, overlap, nImages, r.value, days, picks)
      ensures r.Err? ==> 0.0 < nImages
      ensures 0.0 < nImages && core.DayFails(records, 0) ==> r == Err(core.DayError(records, 0))
      ensures r.Err? && !core.DayFails(records, 0) ==> r == Err(TypeError) && SliceBound(core.base.specs["N_images"]).Err?
    {
      days, picks := [], [];
      var scenes: seq<Scene> := [];
      var next: Option<nat> := Some(0);
      while next.Some? && (|scenes| as real) < nImages
        invariant Walking(records, overlap, nImages, scenes, next, days, picks)
        decreases if next.Some? then |records| + 1 - next.value else 0
      {
        var day, days', picks' := NextDay(records, overlap, nImages, scenes, next.value, days, picks);
        if day.Err? {
          return Err(day.error), days', picks';
        }
        scenes, next, days, picks := day.value.0, day.value.1, days', picks';
      }
      core.WalkStopped(records, overlap, nImages, scenes, next, days, picks);
      return Ok(scenes), days, picks;
    }

    /**
     * `_compile_scenes` of the web app: with skip_days set, a day that
     * yields scenes contributes its first; otherwise all of them are added
     * and the list is cut to N_images, which must then be an integer.
     */
    method CompileScenes(records: seq<Rec>, overlap: Scene -> real)
      returns (r: Result<seq<Scene>>, ghost days: seq<nat>, ghost picks: seq<seq<Scene>>)
      ensures records == [] ==> r == Ok([])
      ensures records != [] && "N_images" !in core.base.specs ==> r == Err(KeyError)
      ensures records != [] && "N_images" in core.base.specs && AsReal(core.base.specs["N_images"]).None? ==> r == Err(TypeError)
      ensures r.Ok? && r.value != [] ==>
        "N_images" in core.base.specs && AsReal(core.base.specs["N_images"]).Some? &&
        ((|r.value| - 1) as real) < AsReal(core.base.specs["N_images"]).value
      ensures r.Ok? && "N_images" in core.base.specs && SliceBound(core.base.specs["N_images"]).Ok? ==>
        |r.value| <= Max(0, SliceBound(core.base.specs["N_images"]).value)
      ensures r.Ok? ==> forall s :: s in r.value ==> core.Compiled(records, s, overlap)
      ensures r.Ok? && core.SkipOn() && NewestFirst(records) ==> Decreasing(r.value)
      ensures r.Ok? && records != [] ==>
        "N_images" in core.base.specs && AsReal(core.base.specs["N_images"]).Some? &&
        core.Gathers(records, overlap, AsReal(core.base.specs["N_images"]).value, r.value, days, picks)
      ensures records != [] && "N_images" in core.base.specs && AsReal(core.base.specs["N_images"]).Some? ==>
        var n := AsReal(core.base.specs["N_images"]).value;
        (r.Err? ==> 0.0 < n) &&
        (0.0 < n && core.DayFails(records, 0) ==> r == Err(core.DayError(records, 0))) &&
        (r.Err? && !core.DayFails(records, 0) ==> r == Err(TypeError) && SliceBound(core.base.specs["N_images"]).Err?)
    {
      days, picks := [], [];
      if records == [] {
        return Ok([]), days, picks;
      }
      if "N_images" !in core.base.specs {
        return Err(KeyError), days, picks;
      }
      var nImages := AsReal(core.base.specs["N_images"]);
      if nImages.None? {
        return Err(TypeError), days, picks;
      }
      r, days, picks := CollectScenes(records, overlap, nImages.value);
      if r.Ok? && SliceBound(core.base.specs["N_images"]).Ok? {
        CountBelow(|r.value|, SliceBound(core.base.specs["N_images"]).value, nImages.value);
      }
    }

    // _build_filename

    /** `_build_filename`: file_header + catalogID + '_' + asset_type + '.tif';
        a missing spec is a KeyError and a spec that is not a string cannot
        be concatenated (TypeError). */
    function BuildFilename(catalogID: string): (r: Result<string>)
      reads core.base
      ensures "file_header" !in core.base.specs ==> r == Err(KeyError)
      ensures r.Ok? <==> ("file_header" in core.base.specs && core.base.specs["file_header"].JStr? &&
        "asset_type" in core.base.specs && core.base.specs["asset_type"].JStr?)
      ensures r.Ok? ==> IsPrefix(core.base.specs["file_header"].s + catalogID + "_", r.value)
      ensures r.Ok? ==> |r.value| == |core.base.specs["file_header"].s| + |catalogID| + |core.base.specs["asset_type"].s| + 5
      ensures r.Ok? ==> r.value[|core.base.specs["file_header"].s| + |catalogID| + 1..|r.value| - 4] == core.base.specs["asset_type"].s
      ensures r.Ok? ==> r.value[|r.value| - 4..] == ".tif"
    {
      if "file_header" !in core.base.specs then Err(KeyError)
      else if !core.base.specs["file_header"].JStr? then Err(TypeError)
      else if "asset_type" !in core.base.specs then Err(KeyError)
      else if !core.base.specs["asset_type"].JStr? then Err(TypeError)
      else
        var stem := core.base.specs["file_header"].s + catalogID + "_";
        var name := stem + core.base.specs["asset_type"].s + ".tif";
        assert name[..|stem|] == stem;
        assert name[|stem|..|name| - 4] == core.base.specs["asset_type"].s;
        Ok(name)
    }

    /** Different catalog ids get different file names. */
    lemma FilenameInjective(a: string, b: string)
      requires BuildFilename(a).Ok? && BuildFilename(a) == BuildFilename(b)
      ensures a == b
    {
      var h := core.base.specs["file_header"].s;
      var name := BuildFilename(a).value;
      assert |a| == |b|;
      assert name[..|h| + |a|] == h + a;
      assert name[..|h| + |b|] == h + b;
      assert a == (h + a)[|h|..];
      assert b == (h + b)[|h|..];
    }

    // _reorder

    /** `_reorder` of the web app: for each record, the first path that
        contains its id; a record with no such path stops the generator
        (StopIteration). */
    method Reorder(paths: seq<string>, records: seq<Rec>) returns (r: Result<seq<string>>)
      ensures r == ReorderFirstOf(paths, records)
    {
      var ordered: seq<string> := [];
      for n := 0 to |records|
        invariant |ordered| == n
        invariant forall m :: 0 <= m < n ==> FirstContaining(paths, records[m].id) == Some(ordered[m])
      {
        var id := records[n].id;
        var found: Option<string> := None;
        for q := 0 to |paths|
          invariant FirstContaining(paths, id) == if found.Some? then found else FirstContaining(paths[q..], id)
        {
          if Contains(paths[q], id) {
            found := Some(paths[q]);
            break;
          }
        }
        if found.None? {
          return Err(StopIteration);
        }
        ordered := ordered + [found.value];
      }
      var fn := ReorderFirstOf(paths, records);
      assert fn.Ok?;
      assert ordered == fn.value;
      return Ok(ordered);
    }
  }

  /** The first of `paths` that contains `id`. */
  function FirstContaining(paths: seq<string>, id: string): (r: Option<string>)
    ensures r.None? <==> forall p :: p in paths ==> !Contains(p, id)
    ensures r.Some? ==> r.value in paths && Contains(r.value, id)
    decreases |paths|
  {
    if paths == [] then None
    else if Contains(paths[0], id) then
      assert paths[0] in paths;
      Some(paths[0])
    else
      assert forall p :: p in paths <==> p == paths[0] || p in paths[1..];
      FirstContaining(paths[1..], id)
  }

  /** What the web app's `_reorder` returns: one path per record, each
      containing that record's id. */
  function ReorderFirstOf(paths: seq<string>, records: seq<Rec>): (r: Result<seq<string>>)
    ensures r.Err? <==> exists n :: 0 <= n < |records| && forall p :: p in paths ==> !Contains(p, records[n].id)
    ensures r.Err? ==> r.error == StopIteration
    ensures r.Ok? ==> |r.value| == |records|
    ensures r.Ok? ==> forall n :: 0 <= n < |records| ==> r.value[n] in paths && Contains(r.value[n], records[n].id)
  {
    if exists n :: 0 <= n < |records| && FirstContaining(paths, records[n].id).None? then Err(StopIteration)
    else Ok(seq(|records|, n requires 0 <= n < |records| => FirstContaining(paths, records[n].id).value))
  }

  /** Paths already in record order, each holding only its own record's id,
      come back unchanged. */
  lemma ReorderFirstKeepsOrdered(paths: seq<string>, records: seq<Rec>)
    requires |paths| == |records|
    requires forall n :: 0 <= n < |records| ==> Contains(paths[n], records[n].id)
    requires forall n, m :: 0 <= n < |records| && 0 <= m < |paths| && m != n ==> !Contains(paths[m], records[n].id)
    ensures ReorderFirstOf(paths, records) == Ok(paths)
  {
    forall n | 0 <= n < |records|
      ensures FirstContaining(paths, records[n].id) == Some(paths[n])
    {
      var f := FirstContaining(paths, records[n].id);
      var m :| 0 <= m < |paths| && paths[m] == f.value;
    }
    var r := ReorderFirstOf(paths, records);
    assert r.Ok?;
    assert forall n :: 0 <= n < |records| ==> r.value[n] == paths[n];
    assert r.value == paths;
  }
}
