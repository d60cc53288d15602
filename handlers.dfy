/**
 * The grabber handlers: which providers a handler pulls from, how
 * call-time specs override the handler's own, how a bounding box is
 * rescaled and clamped to the size specs of a provider, whether a story's
 * locations already carry images, and how `pull_for_geojson` records the
 * pulled images in each feature of a FeatureCollection.
 *
 * Cloud storage, the database, file I/O and the asynchronous pulls are
 * not modelled: the outcome of pulling for a feature is a parameter.
 */
module Handlers {
  import opened Wrappers
  import opened Json
  import opened Py
  import opened Geobox

  /** The keys of PROVIDER_CLASSES, in dict order. */
  const ProviderNames: seq<string> := ["digital_globe", "planet"]

  /** The members of `xs` that are in `keep`, in the order of `xs`. */
  function Filter(xs: seq<string>, keep: set<string>): (r: seq<string>)
    ensures forall x :: x in r <==> x in xs && x in keep
    ensures Distinct(xs) ==> Distinct(r)
    ensures |r| <= |xs|
  {
    if xs == [] then []
    else
      var rest := Filter(xs[1..], keep);
      if xs[0] in keep then
        assert xs[0] !in xs[1..] ==> xs[0] !in rest;
        [xs[0]] + rest
      else rest
  }

  /** `Filter` keeps the order of `xs`: an earlier kept member comes first. */
  lemma {:induction false} FilterKeepsOrder(xs: seq<string>, keep: set<string>, i: nat, j: nat)
    requires Distinct(xs) && i < j < |Filter(xs, keep)|
    ensures exists a, b :: 0 <= a < b < |xs| && xs[a] == Filter(xs, keep)[i] && xs[b] == Filter(xs, keep)[j]
    decreases |xs|
  {
    var r := Filter(xs, keep);
    var rest := Filter(xs[1..], keep);
    if xs[0] in keep {
      assert r == [xs[0]] + rest;
      if i == 0 {
        assert r[j] in rest;
        var b :| 0 <= b < |xs[1..]| && xs[1..][b] == r[j];
        assert xs[0] == r[0] && xs[b + 1] == r[j];
      } else {
        FilterKeepsOrder(xs[1..], keep, i - 1, j - 1);
        var a, b :| 0 <= a < b < |xs[1..]| && xs[1..][a] == rest[i - 1] && xs[1..][b] == rest[j - 1];
        assert xs[a + 1] == r[i] && xs[b + 1] == r[j];
      }
    } else {
      FilterKeepsOrder(xs[1..], keep, i, j);
      var a, b :| 0 <= a < b < |xs[1..]| && xs[1..][a] == rest[i] && xs[1..][b] == rest[j];
      assert xs[a + 1] == r[i] && xs[b + 1] == r[j];
    }
  }

  /**
   * The provider filter of `GrabberHandler.__init__`: the providers of
   * PROVIDER_CLASSES that were requested, in dict order; ValueError when
   * none of them was.
   */
  function ProviderClasses(providers: set<string>): (r: Result<seq<string>>)
    ensures r.Err? <==> "digital_globe" !in providers && "planet" !in providers
    ensures r.Err? ==> r.error == ValueError
    ensures r.Ok? ==> Distinct(r.value) && forall p :: p in r.value <==> p in ProviderNames && p in providers
  {
    var classes := Filter(ProviderNames, providers);
    if classes == [] then
      assert "digital_globe" in ProviderNames && "planet" in ProviderNames;
      Err(ValueError)
    else
      assert classes[0] in classes;
      Ok(classes)
  }

  /**
   * `dict.update`: the keys of both, with the value of `overrides`
   * wherever it has the key. The handler's specs are the specs file
   * updated by the constructor's keyword specs, and `pull` updates a copy
   * of those with its call-time specs.
   */
  function Overridden(specs: map<string, Json>, overrides: map<string, Json>): (r: map<string, Json>)
    ensures r.Keys == specs.Keys + overrides.Keys
    ensures forall k :: k in overrides ==> r[k] == overrides[k]
    ensures forall k :: k in specs && k !in overrides ==> r[k] == specs[k]
  {
    specs + overrides
  }

  /** Overriding twice with the same specs is overriding once, and no
      call-time specs leave the handler's specs as they are. */
  lemma OverriddenIdempotent(specs: map<string, Json>, overrides: map<string, Json>)
    ensures Overridden(Overridden(specs, overrides), overrides) == Overridden(specs, overrides)
    ensures Overridden(specs, map[]) == specs
  {
    var once := Overridden(specs, overrides);
    assert Overridden(once, overrides).Keys == once.Keys;
    assert Overridden(specs, map[]).Keys == specs.Keys;
  }

  // ----- _enforce_size_specs -----------------------------------------------

  /**
   * A side length after the clamps: raised to `lo` when below it, then
   * lowered to `hi` when above it (so `hi` wins when the two cross).
   */
  function Clamped(x: real, lo: Option<real>, hi: Option<real>): (r: real)
    ensures hi.Some? ==> r <= hi.value
    ensures lo.Some? && (hi.None? || lo.value <= hi.value) ==> r >= lo.value
    ensures (lo.None? || x >= lo.value) && (hi.None? || x <= hi.value) ==> r == x
    ensures r == x || (lo.Some? && r == lo.value) || (hi.Some? && r == hi.value)
  {
    var raised := if lo.Some? && x < lo.value then lo.value else x;
    if hi.Some? && raised > hi.value then hi.value else raised
  }

  /** A side scaled by the bbox_rescaling factor, when one is given. */
  function Rescaled(x: real, rescaling: Option<real>): real {
    if rescaling.Some? then x * rescaling.value else x
  }

  /** One side raised to the minimum, then capped at the maximum. */
  method Clamp(x: real, lo: Option<real>, hi: Option<real>) returns (r: real)
    ensures r == Clamped(x, lo, hi)
  {
    r := x;
    if lo.Some? && r < lo.value {
      r := lo.value;
    }
    if hi.Some? && r > hi.value {
      r := hi.value;
    }
  }

  /** A handler, with the fields `__init__` sets and later code reads. */
  class GrabberHandler {
    const providerClasses: seq<string>
    const imageSpecs: map<string, Json>

    constructor (providerClasses: seq<string>, imageSpecs: map<string, Json>)
      ensures this.providerClasses == providerClasses && this.imageSpecs == imageSpecs
    {
      this.providerClasses := providerClasses;
      this.imageSpecs := imageSpecs;
    }

    /** Any of min_size, max_size and bbox_rescaling among the specs. */
    predicate SizeSpecsGiven() {
      "min_size" in imageSpecs || "max_size" in imageSpecs || "bbox_rescaling" in imageSpecs
    }

    /** The rescaling factor: none when the spec is absent (the KeyError
        is caught); a value that is not a number cannot multiply a side. */
    function Rescaling(): (r: Result<Option<real>>)
      ensures "bbox_rescaling" !in imageSpecs ==> r == Ok(None)
      ensures "bbox_rescaling" in imageSpecs ==>
        r == (if AsReal(imageSpecs["bbox_rescaling"]).Some? then Ok(AsReal(imageSpecs["bbox_rescaling"]))
              else Err(TypeError))
    {
      if "bbox_rescaling" !in imageSpecs then Ok(None)
      else if AsReal(imageSpecs["bbox_rescaling"]).None? then Err(TypeError)
      else Ok(AsReal(imageSpecs["bbox_rescaling"]))
    }

    /**
     * The size limit `specs[key][provider]`: none when either key is
     * missing (the KeyError is caught); a TypeError when the spec is not a
     * dict or the limit cannot be compared with a number.
     */
    function SizeLimit(key: string, provider: string): (r: Result<Option<real>>)
      ensures key !in imageSpecs ==> r == Ok(None)
      ensures key in imageSpecs && !imageSpecs[key].JObj? ==> r == Err(TypeError)
      ensures key in imageSpecs && imageSpecs[key].JObj? && provider !in imageSpecs[key].fields ==> r == Ok(None)
      ensures r.Ok? && r.value.Some? ==>
        key in imageSpecs && imageSpecs[key].JObj? && provider in imageSpecs[key].fields &&
        AsReal(imageSpecs[key].fields[provider]) == r.value
    {
      if key !in imageSpecs then Ok(None)
      else if !imageSpecs[key].JObj? then Err(TypeError)
      else if provider !in imageSpecs[key].fields then Ok(None)
      else
        var limit := AsReal(imageSpecs[key].fields[provider]);
        if limit.None? then Err(TypeError) else Ok(limit)
    }

    /** The side lengths `_enforce_size_specs` arrives at: both sides
        rescaled, then raised to min_size and capped at max_size for the
        provider. They end up at most max_size, at least min_size when the
        limits are ordered, and unchanged when no spec applies. */
    function ClampedSides(delx: real, dely: real, provider: string): (r: Result<(real, real)>)
      ensures r.Ok? <==> Rescaling().Ok? && SizeLimit("min_size", provider).Ok? && SizeLimit("max_size", provider).Ok?
      ensures r.Err? ==> r.error == TypeError
      ensures r.Ok? ==>
        var lo := SizeLimit("min_size", provider).value;
        var hi := SizeLimit("max_size", provider).value;
        (hi.Some? ==> r.value.0 <= hi.value && r.value.1 <= hi.value) &&
        (lo.Some? && (hi.None? || lo.value <= hi.value) ==> r.value.0 >= lo.value && r.value.1 >= lo.value) &&
        (lo.None? && hi.None? && Rescaling().value.None? ==> r.value == (delx, dely))
    {
      var rescaling :- Rescaling();
      var lo :- SizeLimit("min_size", provider);
      var hi :- SizeLimit("max_size", provider);
      Ok((Clamped(Rescaled(delx, rescaling), lo, hi), Clamped(Rescaled(dely, rescaling), lo, hi)))
    }

    /**
     * The step-by-step clamping of `_enforce_size_specs`, on the side
     * distances of the box.
     */
    method Sides(delx0: real, dely0: real, provider: string) returns (r: Result<(real, real)>)
      ensures r == ClampedSides(delx0, dely0, provider)
    {
      var rescaling := Rescaling();
      if rescaling.Err? {
        return Err(rescaling.error);
      }
      var delx := Rescaled(delx0, rescaling.value);
      var dely := Rescaled(dely0, rescaling.value);
      var minSize := SizeLimit("min_size", provider);
      if minSize.Err? {
        return Err(minSize.error);
      }
      var maxSize := SizeLimit("max_size", provider);
      if maxSize.Err? {
        return Err(maxSize.error);
      }
      delx := Clamp(delx, minSize.value, maxSize.value);
      dely := Clamp(dely, minSize.value, maxSize.value);
      r := Ok((delx, dely));
    }

    /**
     * `_enforce_size_specs`: the box as it is when no size spec is given;
     * otherwise the box with the same centre whose sides are the clamped
     * distances, converted back to degrees. `sides` are the box's side
     * distances (geobox.get_side_distances); `latFromDist` and
     * `lonFromDist` are the conversions back to degrees.
     */
    method EnforceSizeSpecs(bbox: Box, provider: string, sides: (real, real),
                            latFromDist: real -> real, lonFromDist: (real, real) -> real)
      returns (r: Result<Box>)
      ensures !SizeSpecsGiven() ==> r == Ok(bbox)
      ensures SizeSpecsGiven() ==> (r.Ok? <==> ClampedSides(sides.0, sides.1, provider).Ok?)
      ensures SizeSpecsGiven() && r.Ok? ==>
        var clamped := ClampedSides(sides.0, sides.1, provider).value;
        CentreX(r.value) == CentreX(bbox) && CentreY(r.value) == CentreY(bbox) &&
        Height(r.value) == latFromDist(clamped.1) &&
        Width(r.value) == lonFromDist(clamped.0, CentreY(bbox))
    {
      if !SizeSpecsGiven() {
        return Ok(bbox);
      }
      var clamped := Sides(sides.0, sides.1, provider);
      if clamped.Err? {
        return Err(clamped.error);
      }
      var delx, dely := clamped.value.0, clamped.value.1;
      var lon, lat := CentreX(bbox), CentreY(bbox);
      var deltalat := latFromDist(dely);
      var deltalon := lonFromDist(delx, lat);
      r := Ok(MakeBbox(lat, lon, deltalat, deltalon));
    }
  }

  /**
   * `GrabberHandler.__init__`: keep the requested providers (ValueError
   * when none is known) and take the specs file's specs, updated by the
   * keyword specs.
   */
  method NewGrabberHandler(providers: set<string>, fileSpecs: map<string, Json>, imageSpecs: map<string, Json>)
    returns (r: Result<GrabberHandler>)
    ensures r.Err? <==> ProviderClasses(providers).Err?
    ensures r.Err? ==> r.error == ValueError
    ensures r.Ok? ==> (fresh(r.value) && r.value.providerClasses == ProviderClasses(providers).value &&
      r.value.imageSpecs == Overridden(fileSpecs, imageSpecs))
  {
    var classes := ProviderClasses(providers);
    if classes.Err? {
      return Err(classes.error);
    }
    var h := new GrabberHandler(classes.value, Overridden(fileSpecs, imageSpecs));
    r := Ok(h);
  }

  // ----- _check_for_images -------------------------------------------------

  /** A location record that already carries images. */
  predicate HasImages(data: Json) {
    data.JObj? && "images" in data.fields
  }

  /**
   * `StoryHandler._check_for_images` over the values of core_locations, in
   * dict order: true at the first location with an 'images' key; a value
   * that is not a dict has no `keys()` (AttributeError).
   */
  method CheckForImages(locations: seq<Json>) returns (r: Result<bool>)
    ensures r == Ok(true) <==>
      exists i :: 0 <= i < |locations| && HasImages(locations[i]) && forall j :: 0 <= j < i ==> locations[j].JObj?
    ensures r == Ok(false) <==> forall i :: 0 <= i < |locations| ==> locations[i].JObj? && !HasImages(locations[i])
    ensures r.Err? ==> r.error == AttributeError
  {
    for i := 0 to |locations|
      invariant forall j :: 0 <= j < i ==> locations[j].JObj? && !HasImages(locations[j])
    {
      var data := locations[i];
      if !data.JObj? {
        return Err(AttributeError);
      }
      if "images" in data.fields {
        return Ok(true);
      }
    }
    return Ok(false);
  }

  // ----- pull_for_geojson --------------------------------------------------

  /**
   * What pulling for one feature came to: the image records; or no box,
   * because the feature's geometry is missing or not a shape; or a box
   * whose pull raised.
   */
  datatype Pulled = Pulled(records: seq<Json>) | NoGeometry | PullFailed

  /** The records appended for a feature: none when the pull failed. */
  function RecordsOf(p: Pulled): seq<Json> {
    if p.Pulled? then p.records else []
  }

  /** The images list of a feature's properties, [] when absent. */
  function ImagesOf(feature: Json): seq<Json>
    requires feature.JObj?
  {
    var props := if "properties" in feature.fields then feature.fields["properties"] else JObj(map[]);
    if props.JObj? && "images" in props.fields && props.fields["images"].JList? then props.fields["images"].items
    else []
  }

  /** A feature whose properties and images can be set up and extended. */
  predicate Annotatable(feature: Json) {
    feature.JObj? &&
    ("properties" in feature.fields ==> feature.fields["properties"].JObj?) &&
    ("properties" in feature.fields && "images" in feature.fields["properties"].fields ==>
      feature.fields["properties"].fields["images"].JList?)
  }

  /**
   * One feature of `pull_for_geojson`: properties default to {} and their
   * images to [], and the pulled records are appended to the images. A
   * feature or properties value that is not a dict has no `keys()`
   * (AttributeError); images that are not a list cannot take `+= records`
   * (TypeError). Everything else in the feature is kept.
   */
  function Annotated(feature: Json, records: seq<Json>): (r: Result<Json>)
    ensures r.Ok? <==> Annotatable(feature)
    ensures !feature.JObj? || ("properties" in feature.fields && !feature.fields["properties"].JObj?) ==>
      r == Err(AttributeError)
    ensures r.Ok? ==> (r.value.JObj? && "properties" in r.value.fields && r.value.fields["properties"].JObj? &&
      "images" in r.value.fields["properties"].fields &&
      r.value.fields["properties"].fields["images"] == JList(ImagesOf(feature) + records))
    ensures r.Ok? ==> (r.value.fields.Keys == feature.fields.Keys + {"properties"} &&
      forall k :: k in feature.fields && k != "properties" ==> r.value.fields[k] == feature.fields[k])
    ensures r.Ok? && "properties" in feature.fields ==>
      var props := feature.fields["properties"].fields;
      r.value.fields["properties"].fields.Keys == props.Keys + {"images"} &&
      forall k :: k in props && k != "images" ==> r.value.fields["properties"].fields[k] == props[k]
  {
    if !feature.JObj? then Err(AttributeError)
    else
      var props := if "properties" in feature.fields then feature.fields["properties"] else JObj(map[]);
      if !props.JObj? then Err(AttributeError)
      else
        var images := if "images" in props.fields then props.fields["images"] else JList([]);
        if !images.JList? then Err(TypeError)
        else
          var newProps := props.fields["images" := JList(images.items + records)];
          Ok(JObj(feature.fields["properties" := JObj(newProps)]))
  }

  /** A failed pull leaves a feature's images as they were. */
  lemma FailedPullKeepsImages(feature: Json)
    requires Annotatable(feature)
    ensures ImagesOf(Annotated(feature, RecordsOf(PullFailed)).value) == ImagesOf(feature)
  {
    assert ImagesOf(feature) + [] == ImagesOf(feature);
  }

  /** Annotating twice appends both pulls, in order. */
  lemma {:induction false} AnnotatedTwice(feature: Json, a: seq<Json>, b: seq<Json>)
    requires Annotatable(feature)
    ensures Annotatable(Annotated(feature, a).value)
    ensures ImagesOf(Annotated(Annotated(feature, a).value, b).value) == ImagesOf(feature) + a + b
  {
    var once := Annotated(feature, a).value;
    assert ImagesOf(once) == ImagesOf(feature) + a;
  }

  /** Feature `i` is reached with no box yet set: every feature before it
      and itself lack a usable geometry. */
  predicate NoBoxYet(outcomes: seq<Pulled>, i: nat)
    requires i < |outcomes|
  {
    forall j :: 0 <= j <= i ==> outcomes[j].NoGeometry?
  }

  /**
   * `GeoJSONHandler.pull_for_geojson` as written, over the features of the
   * collection with what pulling for each came to. When the geometry of the
   * first features cannot be read, the logging in the except clause reads
   * `bbox` before any assignment and raises UnboundLocalError.
   */
  method PullForGeojsonAsWritten(features: seq<Json>, outcomes: seq<Pulled>) returns (r: Result<seq<Json>>)
    requires |outcomes| == |features|
    ensures r.Ok? <==> forall i :: 0 <= i < |features| ==> Annotatable(features[i]) && !NoBoxYet(outcomes, i)
    ensures r.Ok? ==> (|r.value| == |features| &&
      forall i :: 0 <= i < |features| ==> Annotated(features[i], RecordsOf(outcomes[i])) == Ok(r.value[i]))
    ensures |features| > 0 && Annotatable(features[0]) && outcomes[0].NoGeometry? ==> r == Err(UnboundLocalError)
  {
    var done: seq<Json> := [];
    var boxed := false;
    for i := 0 to |features|
      invariant |done| == i
      invariant boxed <==> i > 0
      invariant i > 0 ==> !outcomes[0].NoGeometry?
      invariant forall j :: 0 <= j < i ==> Annotatable(features[j])
      invariant forall j :: 0 <= j < i ==> Annotated(features[j], RecordsOf(outcomes[j])) == Ok(done[j])
    {
      var feature := Annotated(features[i], RecordsOf(outcomes[i]));
      if feature.Err? && feature.error == AttributeError {
        assert !Annotatable(features[i]);
        return Err(AttributeError);
      }
      if outcomes[i].NoGeometry? && !boxed {
        assert NoBoxYet(outcomes, i);
        return Err(UnboundLocalError);
      }
      if feature.Err? {
        assert !Annotatable(features[i]);
        return Err(feature.error);
      }
      boxed := true;
      done := done + [feature.value];
    }
    assert forall i :: 0 <= i < |features| ==> !NoBoxYet(outcomes, i);
    r := Ok(done);
  }

  /**
   * `pull_for_geojson` as intended: a feature whose pull cannot even start
   * is logged and gets no new images, like a failed pull.
   */
  method PullForGeojson(features: seq<Json>, outcomes: seq<Pulled>) returns (r: Result<seq<Json>>)
    requires |outcomes| == |features|
    ensures r.Ok? <==> forall i :: 0 <= i < |features| ==> Annotatable(features[i])
    ensures r.Ok? ==> (|r.value| == |features| &&
      forall i :: 0 <= i < |features| ==> Annotated(features[i], RecordsOf(outcomes[i])) == Ok(r.value[i]))
  {
    var done: seq<Json> := [];
    for i := 0 to |features|
      invariant |done| == i
      invariant forall j :: 0 <= j < i ==> Annotatable(features[j])
      invariant forall j :: 0 <= j < i ==> Annotated(features[j], RecordsOf(outcomes[j])) == Ok(done[j])
    {
      var feature := Annotated(features[i], RecordsOf(outcomes[i]));
      if feature.Err? {
        assert !Annotatable(features[i]);
        return Err(feature.error);
      }
      done := done + [feature.value];
    }
    r := Ok(done);
  }
}
