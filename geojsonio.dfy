/** Reading geometries out of GeoJSON objects and wrapping geometries back
    into a FeatureCollection. */
module GeoJsonIo {
  import opened Wrappers
  import opened Json

  const GeometryTypes: seq<string> :=
    ["Point", "MultiPoint", "LineString", "MultiLineString", "Polygon", "MultiPolygon"]

  /** `[f['geometry'] for f in features]`: the first feature that is not a
      dict, or has no geometry, raises. */
  function FeatureGeometries(features: seq<Json>): (r: Result<seq<Json>>)
    ensures r.Ok? <==> forall i :: 0 <= i < |features| ==> features[i].JObj? && "geometry" in features[i].fields
    ensures r.Ok? ==>
      |r.value| == |features| && forall i :: 0 <= i < |features| ==> r.value[i] == features[i].fields["geometry"]
    ensures r.Err? ==> r.error in {TypeError, KeyError}
  {
    if features == [] then Ok([])
    else if !features[0].JObj? then Err(TypeError)
    else if "geometry" !in features[0].fields then Err(KeyError)
    else
      match FeatureGeometries(features[1..])
      case Err(e) => Err(e)
      case Ok(rest) => Ok([features[0].fields["geometry"]] + rest)
  }

  predicate KnownType(t: Json) {
    t.JStr? && (t.s in GeometryTypes || t.s in {"FeatureCollection", "Feature", "GeometryCollection"})
  }

  /**
   * `list_geometries`: the list of geometries a GeoJSON object holds. A
   * GeometryCollection's `geometries` member is returned as it is, whatever
   * it holds.
   */
  function ListGeometries(obj: map<string, Json>): (r: Result<Json>)
    ensures "type" !in obj ==> r == Err(KeyError)
    ensures "type" in obj && obj["type"] == JStr("FeatureCollection") ==>
      if "features" !in obj then r == Err(KeyError)
      else if !obj["features"].JList? then
        r == if Members(obj["features"]).Some? && !Truthy(obj["features"]) then Ok(JList([])) else Err(TypeError)
      else
        var features := obj["features"].items;
        (r.Ok? <==> forall i :: 0 <= i < |features| ==> features[i].JObj? && "geometry" in features[i].fields) &&
        (r.Ok? ==> r.value.JList? && |r.value.items| == |features| &&
                   forall i :: 0 <= i < |features| ==> r.value.items[i] == features[i].fields["geometry"])
    ensures "type" in obj && obj["type"] == JStr("Feature") ==>
      r == if "geometry" in obj then Ok(JList([obj["geometry"]])) else Err(KeyError)
    ensures "type" in obj && obj["type"] == JStr("GeometryCollection") ==>
      r == if "geometries" in obj then Ok(obj["geometries"]) else Err(KeyError)
    ensures "type" in obj && obj["type"].JStr? && obj["type"].s in GeometryTypes ==> r == Ok(JList([JObj(obj)]))
    ensures "type" in obj && !KnownType(obj["type"]) ==> r == Err(ValueError)
  {
    if "type" !in obj then Err(KeyError)
    else
      var t := obj["type"];
      if t == JStr("FeatureCollection") then
        if "features" !in obj then Err(KeyError)
        else
          match Members(obj["features"])
          case None => Err(TypeError)
          case Some(features) =>
            match FeatureGeometries(features)
            case Ok(geoms) => Ok(JList(geoms))
            case Err(e) => Err(e)
      else if t == JStr("Feature") then
        if "geometry" !in obj then Err(KeyError) else Ok(JList([obj["geometry"]]))
      else if t == JStr("GeometryCollection") then
        if "geometries" !in obj then Err(KeyError) else Ok(obj["geometries"])
      else if t.JStr? && t.s in GeometryTypes then Ok(JList([JObj(obj)]))
      else Err(ValueError)
  }

  /** `format_crs`: a named-EPSG CRS member. */
  function FormatCrs(epsgCode: Json): (r: Json)
    ensures r.JObj? && "type" in r.fields && "properties" in r.fields
    ensures r.fields["type"] == JStr("EPSG") && r.fields["properties"] == JObj(map["code" := epsgCode])
  {
    JObj(map["type" := JStr("EPSG"), "properties" := JObj(map["code" := epsgCode])])
  }

  function MakeFeature(g: Json): Json {
    JObj(map["type" := JStr("Feature"), "properties" := JObj(map[]), "geometry" := g])
  }

  /** `format_geometries`: one Feature per geometry, with empty properties,
      and a crs member when an EPSG code is given. */
  function FormatGeometries(geoms: seq<Json>, epsgCode: Json): (r: map<string, Json>)
    ensures "type" in r && "features" in r && r["type"] == JStr("FeatureCollection")
    ensures r["features"].JList? && |r["features"].items| == |geoms|
    ensures forall i :: 0 <= i < |geoms| ==> r["features"].items[i] == MakeFeature(geoms[i])
    ensures "crs" in r <==> Truthy(epsgCode)
    ensures "crs" in r ==> r["crs"] == FormatCrs(epsgCode)
  {
    var features := seq(|geoms|, i requires 0 <= i < |geoms| => MakeFeature(geoms[i]));
    var collection := map["type" := JStr("FeatureCollection"), "features" := JList(features)];
    if Truthy(epsgCode) then collection["crs" := FormatCrs(epsgCode)] else collection
  }

  /** Formatting geometries and listing them again gives back the same
      geometries, in the same order, with or without a crs. */
  lemma ListFormatRoundTrip(geoms: seq<Json>, epsgCode: Json)
    ensures ListGeometries(FormatGeometries(geoms, epsgCode)) == Ok(JList(geoms))
  {
    var fc := FormatGeometries(geoms, epsgCode);
    var r := FeatureGeometries(fc["features"].items);
    assert r.Ok?;
    assert r.value == geoms;
  }

  /** A geometry object lists as itself, and wrapping it in a collection and
      listing again gives it back. */
  lemma GeometryListsAsItself(obj: map<string, Json>)
    requires "type" in obj && obj["type"].JStr? && obj["type"].s in GeometryTypes
    ensures ListGeometries(obj) == Ok(JList([JObj(obj)]))
    ensures ListGeometries(FormatGeometries(ListGeometries(obj).value.items, JNull)) == ListGeometries(obj)
  {
    ListFormatRoundTrip([JObj(obj)], JNull);
  }
}
