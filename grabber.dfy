/**
 * The template every provider grabber follows: specs loaded from defaults
 * and overridden by keyword arguments, the overlap test, the fast-forward
 * over the search results, and the post-processing that turns a raw GeoTiff
 * into landcover indices and color-corrected images.
 */
module Grabber {
  import opened Wrappers
  import opened Json
  import opened Py

  /** An entry of the list `photoshop` returns as written: a path, or a
      nested list of paths. */
  datatype Output = Path(p: string) | Paths(ps: seq<string>)

  /** What `photoshop` returns, and the raw file it deletes, if any. */
  datatype Products<T> = Products(outputs: seq<T>, removed: Option<string>)

  /**
   * `search_clean`: the first `max_records` search results, cleaned, in
   * search order; None takes them all and a negative bound makes islice
   * raise ValueError.
   */
  function SearchClean<T, U>(records: seq<T>, maxRecords: Option<int>, clean: T -> U): (r: Result<seq<U>>)
    ensures r.Err? <==> maxRecords.Some? && maxRecords.value < 0
    ensures r.Err? ==> r.error == ValueError
    ensures r.Ok? ==> |r.value| == (if maxRecords.None? then |records| else Min(maxRecords.value, |records|))
    ensures r.Ok? ==> forall k :: 0 <= k < |r.value| ==> r.value[k] == clean(records[k])
  {
    if maxRecords.Some? && maxRecords.value < 0 then Err(ValueError)
    else
      var n := if maxRecords.None? then |records| else Min(maxRecords.value, |records|);
      Ok(seq(n, k requires 0 <= k < n => clean(records[k])))
  }

  class ImageGrabber {
    /** Catalog and image specs. */
    var specs: map<string, Json>

    /** The default specs file, updated with the keyword arguments. */
    constructor (defaults: map<string, Json>, overrides: map<string, Json>)
      ensures specs.Keys == defaults.Keys + overrides.Keys
      ensures forall k :: k in overrides ==> specs[k] == overrides[k]
      ensures forall k :: k in defaults && k !in overrides ==> specs[k] == defaults[k]
    {
      specs := defaults + overrides;
    }

    /** `_well_overlapped`: the scene's fractional overlap with the box meets
        min_intersect. Comparing with a value that is not a number fails. */
    function WellOverlapped(fracArea: real): (r: Result<bool>)
      reads this
      ensures "min_intersect" !in specs ==> r == Err(KeyError)
      ensures "min_intersect" in specs && AsReal(specs["min_intersect"]).None? ==> r == Err(TypeError)
      ensures r.Ok? <==> "min_intersect" in specs && AsReal(specs["min_intersect"]).Some?
    {
      if "min_intersect" !in specs then Err(KeyError)
      else match AsReal(specs["min_intersect"])
        case None => Err(TypeError)
        case Some(m) => Ok(fracArea >= m)
    }

    /** More overlap is never worse. */
    lemma WellOverlappedMonotone(a: real, b: real)
      requires a <= b && WellOverlapped(a) == Ok(true)
      ensures WellOverlapped(b) == Ok(true)
    {
    }

    /** With a numeric threshold the test is exactly frac_area >= min_intersect. */
    lemma WellOverlappedThreshold(fracArea: real)
      requires "min_intersect" in specs && AsReal(specs["min_intersect"]).Some?
      ensures WellOverlapped(fracArea) == Ok(fracArea >= AsReal(specs["min_intersect"]).value)
    {
    }

    /**
     * `_fastforward`: consume the record iterator (the records from `pos`
     * on) up to and including the first record acquired more than skip_days
     * before `date`, and return it with the new iterator position; None once
     * the iterator runs out. `dayOf` is the acquisition day of a cleaned
     * record; dates are day numbers.
     */
    method Fastforward<T>(records: seq<T>, pos: nat, date: int, dayOf: T -> int)
      returns (r: Result<(Option<T>, nat)>)
      ensures pos >= |records| ==> r == Ok((None, pos))
      ensures pos < |records| && "skip_days" !in specs ==> r == Err(KeyError)
      ensures pos < |records| && "skip_days" in specs && AsReal(specs["skip_days"]).None? ==> r == Err(TypeError)
      ensures r.Ok? && pos < |records| ==> SkipDaysSet()
      ensures SkipDaysSet() ==> r.Ok?
      ensures r.Ok? && r.value.0.Some? ==>
        pos < r.value.1 <= |records| && r.value.0.value == records[r.value.1 - 1] &&
        OldEnough(date, dayOf(records[r.value.1 - 1])) &&
        forall k :: pos <= k < r.value.1 - 1 ==> !OldEnough(date, dayOf(records[k]))
      ensures r.Ok? && r.value.0.None? ==>
        r.value.1 == Max(pos, |records|) && forall k :: pos <= k < |records| ==> !OldEnough(date, dayOf(records[k]))
    {
      var i := pos;
      while i < |records|
        invariant pos <= i <= Max(pos, |records|)
        invariant i > pos ==> SkipDaysSet()
        invariant forall k :: pos <= k < i ==> !OldEnough(date, dayOf(records[k]))
      {
        var record := records[i];
        i := i + 1;
        if "skip_days" !in specs {
          return Err(KeyError);
        }
        var skip := AsReal(specs["skip_days"]);
        if skip.None? {
          return Err(TypeError);
        }
        if (date - dayOf(record)) as real > skip.value {
          return Ok((Some(record), i));
        }
      }
      return Ok((None, i));
    }

    predicate SkipDaysSet()
      reads this
    {
      "skip_days" in specs && AsReal(specs["skip_days"]).Some?
    }

    /** The fast-forward test: acquired more than skip_days before `date`. */
    predicate OldEnough(date: int, day: int)
      reads this
    {
      SkipDaysSet() && (date - day) as real > AsReal(specs["skip_days"]).value
    }

    /** The index images `_indexing` writes: one per requested index that is
        among `known` (landcover.INDICES), lower-cased, in the requested
        order. `computeIndex(path, index)` stands for landcover.compute_index. */
    function IndexImages(path: string, known: set<string>, computeIndex: (string, string) -> string): (r: Result<seq<string>>)
      reads this
      ensures "landcover_indices" !in specs ==> r == Err(KeyError)
      ensures "landcover_indices" in specs ==> (r.Err? <==> SelectKnown(specs["landcover_indices"], known, false).Err?)
      ensures r.Ok? ==>
        var selected := SelectKnown(specs["landcover_indices"], known, false).value;
        |r.value| == |selected|
    {
      if "landcover_indices" !in specs then Err(KeyError)
      else
        var selected :- SelectKnown(specs["landcover_indices"], known, false);
        var images := seq(|selected|, k requires 0 <= k < |selected| => computeIndex(path, selected[k]));
        Ok(images)
    }

    /** The images `_coloring` writes: one per requested style that is among
        `known` (the keys of color.STYLES), lower-cased, in the requested
        order. `colorCorrect(style, path)` stands for
        color.ColorCorrect(style=style)(path). */
    function ColorImages(path: string, known: set<string>, colorCorrect: (string, string) -> string): (r: Result<seq<string>>)
      reads this
      ensures "write_styles" !in specs ==> r == Err(KeyError)
      ensures "write_styles" in specs ==> (r.Err? <==> SelectKnown(specs["write_styles"], known, true).Err?)
      ensures r.Ok? ==>
        var selected := SelectKnown(specs["write_styles"], known, true).value;
        |r.value| == |selected|
    {
      if "write_styles" !in specs then Err(KeyError)
      else
        var selected :- SelectKnown(specs["write_styles"], known, true);
        var images := seq(|selected|, k requires 0 <= k < |selected| => colorCorrect(selected[k], path));
        Ok(images)
    }

    /** Index image k is computed from the k-th selected index. */
    lemma IndexImagesInOrder(path: string, known: set<string>, computeIndex: (string, string) -> string)
      requires IndexImages(path, known, computeIndex).Ok?
      ensures var images := IndexImages(path, known, computeIndex).value;
        var selected := SelectKnown(specs["landcover_indices"], known, false).value;
        |images| == |selected| && (forall k :: 0 <= k < |images| ==> images[k] == computeIndex(path, selected[k])) &&
        forall p :: p in images ==> exists x :: x in known && p == computeIndex(path, Lower(x))
    {
      var images := IndexImages(path, known, computeIndex).value;
      SelectKnownMembers(specs["landcover_indices"], known, false);
      var selected := SelectKnown(specs["landcover_indices"], known, false).value;
      forall p | p in images
        ensures exists x :: x in known && p == computeIndex(path, Lower(x))
      {
        var k :| 0 <= k < |images| && images[k] == p;
        assert selected[k] in selected;
      }
    }

    /** Colour image k is made in the k-th selected style. */
    lemma ColorImagesInOrder(path: string, known: set<string>, colorCorrect: (string, string) -> string)
      requires ColorImages(path, known, colorCorrect).Ok?
      ensures var images := ColorImages(path, known, colorCorrect).value;
        var selected := SelectKnown(specs["write_styles"], known, true).value;
        |images| == |selected| && (forall k :: 0 <= k < |images| ==> images[k] == colorCorrect(selected[k], path)) &&
        forall p :: p in images ==> exists x :: x in known && p == colorCorrect(Lower(x), path)
    {
      var images := ColorImages(path, known, colorCorrect).value;
      SelectKnownMembers(specs["write_styles"], known, true);
      var selected := SelectKnown(specs["write_styles"], known, true).value;
      forall p | p in images
        ensures exists x :: x in known && p == colorCorrect(Lower(x), path)
      {
        var k :| 0 <= k < |images| && images[k] == p;
        assert selected[k] in selected;
      }
    }

    /** `_indexing`, image by image. */
    method Indexing(path: string, known: set<string>, computeIndex: (string, string) -> string)
      returns (r: Result<seq<string>>)
      ensures r == IndexImages(path, known, computeIndex)
    {
      if "landcover_indices" !in specs {
        return Err(KeyError);
      }
      var indices := SelectKnown(specs["landcover_indices"], known, false);
      if indices.Err? {
        return Err(indices.error);
      }
      var outputPaths := [];
      for i := 0 to |indices.value|
        invariant |outputPaths| == i
        invariant forall k :: 0 <= k < i ==> outputPaths[k] == computeIndex(path, indices.value[k])
      {
        outputPaths := outputPaths + [computeIndex(path, indices.value[i])];
      }
      IndexImagesInOrder(path, known, computeIndex);
      assert outputPaths == IndexImages(path, known, computeIndex).value;
      r := Ok(outputPaths);
    }

    /** `_coloring`, style by style. */
    method Coloring(path: string, known: set<string>, colorCorrect: (string, string) -> string)
      returns (r: Result<seq<string>>)
      ensures r == ColorImages(path, known, colorCorrect)
    {
      if "write_styles" !in specs {
        return Err(KeyError);
      }
      var styles := SelectKnown(specs["write_styles"], known, true);
      if styles.Err? {
        return Err(styles.error);
      }
      var outputPaths := [];
      for i := 0 to |styles.value|
        invariant |outputPaths| == i
        invariant forall k :: 0 <= k < i ==> outputPaths[k] == colorCorrect(styles.value[k], path)
      {
        outputPaths := outputPaths + [colorCorrect(styles.value[i], path)];
      }
      ColorImagesInOrder(path, known, colorCorrect);
      assert outputPaths == ColorImages(path, known, colorCorrect).value;
      r := Ok(outputPaths);
    }

    /** The image the products are made from: rebanded to RGB once indices
        were computed. `reband(path)` stands for reband(path, [1, 2, 3]). */
    function Rgb(path: string, reband: string -> string): string
      reads this
      requires "landcover_indices" in specs
    {
      if Truthy(specs["landcover_indices"]) then reband(path) else path
    }

    /**
     * What `photoshop` returns as written: the index images and the color
     * images are each appended as one nested list, so the list is never empty
     * when thumbnails is checked, and the raw image is deleted whenever
     * thumbnails are on, even if no product was made.
     */
    function PhotoshopAsWrittenOf(path: string, indices: set<string>, styles: set<string>,
                                  computeIndex: (string, string) -> string, colorCorrect: (string, string) -> string,
                                  reband: string -> string): (r: Result<Products<Output>>)
      reads this
    {
      if "landcover_indices" !in specs then Err(KeyError)
      else
        var first :- if Truthy(specs["landcover_indices"]) then
                       match IndexImages(path, indices, computeIndex)
                       case Ok(images) => Ok([Paths(images)])
                       case Err(e) => Err(e)
                     else Ok([]);
        var raw := Rgb(path, reband);
        var colored :- ColorImages(raw, styles, colorCorrect);
        var outputs := first + [Paths(colored)];
        if "thumbnails" !in specs then Err(KeyError)
        else if Truthy(specs["thumbnails"]) && outputs != [] then Ok(Products(outputs, Some(raw)))
        else Ok(Products(outputs + [Path(raw)], None))
    }

    /**
     * What `photoshop` evidently means to return: index and color images in
     * one flat list of paths, with the RGB image kept (last) unless
     * thumbnails are on and some product was written, in which case it is
     * deleted.
     */
    function PhotoshopOf(path: string, indices: set<string>, styles: set<string>,
                         computeIndex: (string, string) -> string, colorCorrect: (string, string) -> string,
                         reband: string -> string): (r: Result<Products<string>>)
      reads this
    {
      if "landcover_indices" !in specs then Err(KeyError)
      else
        var first :- if Truthy(specs["landcover_indices"]) then IndexImages(path, indices, computeIndex) else Ok([]);
        var raw := Rgb(path, reband);
        var colored :- ColorImages(raw, styles, colorCorrect);
        var outputs := first + colored;
        if "thumbnails" !in specs then Err(KeyError)
        else if Truthy(specs["thumbnails"]) && outputs != [] then Ok(Products(outputs, Some(raw)))
        else Ok(Products(outputs + [raw], None))
    }

    /** The products come in order: the index images (when indices were
        asked for), then the colour images of the RGB image, then that image
        itself unless it was deleted. */
    lemma PhotoshopOfOrder(path: string, indices: set<string>, styles: set<string>,
                           computeIndex: (string, string) -> string, colorCorrect: (string, string) -> string,
                           reband: string -> string)
      requires "landcover_indices" in specs && "thumbnails" in specs
      requires Truthy(specs["landcover_indices"]) ==> IndexImages(path, indices, computeIndex).Ok?
      requires ColorImages(Rgb(path, reband), styles, colorCorrect).Ok?
      ensures var first := if Truthy(specs["landcover_indices"]) then IndexImages(path, indices, computeIndex).value else [];
        var made := first + ColorImages(Rgb(path, reband), styles, colorCorrect).value;
        PhotoshopOf(path, indices, styles, computeIndex, colorCorrect, reband) ==
          if Truthy(specs["thumbnails"]) && made != [] then Ok(Products(made, Some(Rgb(path, reband))))
          else Ok(Products(made + [Rgb(path, reband)], None))
    {
    }

    /** As written, the products come as one nested list of index images
        (when indices were asked for), then one nested list of colour
        images, then the RGB image unless it was deleted. */
    lemma PhotoshopAsWrittenOfOrder(path: string, indices: set<string>, styles: set<string>,
                                    computeIndex: (string, string) -> string, colorCorrect: (string, string) -> string,
                                    reband: string -> string)
      requires "landcover_indices" in specs && "thumbnails" in specs
      requires Truthy(specs["landcover_indices"]) ==> IndexImages(path, indices, computeIndex).Ok?
      requires ColorImages(Rgb(path, reband), styles, colorCorrect).Ok?
      ensures var first := if Truthy(specs["landcover_indices"]) then [Paths(IndexImages(path, indices, computeIndex).value)] else [];
        var nested := first + [Paths(ColorImages(Rgb(path, reband), styles, colorCorrect).value)];
        PhotoshopAsWrittenOf(path, indices, styles, computeIndex, colorCorrect, reband) ==
          if Truthy(specs["thumbnails"]) then Ok(Products(nested, Some(Rgb(path, reband))))
          else Ok(Products(nested + [Path(Rgb(path, reband))], None))
    {
    }

    /** `photoshop` fails exactly when a key it reads is missing or the index
        or style selection fails, with the first failure met; otherwise the
        RGB image is deleted only when thumbnails are on and a product was
        made, and is the last product when kept. */
    lemma PhotoshopOfOutcome(path: string, indices: set<string>, styles: set<string>,
                             computeIndex: (string, string) -> string, colorCorrect: (string, string) -> string,
                             reband: string -> string)
      ensures var r := PhotoshopOf(path, indices, styles, computeIndex, colorCorrect, reband);
        r.Ok? <==>
          "landcover_indices" in specs &&
          (Truthy(specs["landcover_indices"]) ==> IndexImages(path, indices, computeIndex).Ok?) &&
          ColorImages(Rgb(path, reband), styles, colorCorrect).Ok? && "thumbnails" in specs
      ensures var r := PhotoshopOf(path, indices, styles, computeIndex, colorCorrect, reband);
        "landcover_indices" in specs && Truthy(specs["landcover_indices"]) &&
          IndexImages(path, indices, computeIndex).Err? ==>
          r == Err(IndexImages(path, indices, computeIndex).error)
      ensures var r := PhotoshopOf(path, indices, styles, computeIndex, colorCorrect, reband);
        "landcover_indices" in specs &&
          (Truthy(specs["landcover_indices"]) ==> IndexImages(path, indices, computeIndex).Ok?) &&
          ColorImages(Rgb(path, reband), styles, colorCorrect).Err? ==>
          r == Err(ColorImages(Rgb(path, reband), styles, colorCorrect).error)
      ensures var r := PhotoshopOf(path, indices, styles, computeIndex, colorCorrect, reband);
        "landcover_indices" !in specs ==> r == Err(KeyError)
      ensures var r := PhotoshopOf(path, indices, styles, computeIndex, colorCorrect, reband);
        r.Ok? ==> "landcover_indices" in specs && "write_styles" in specs && "thumbnails" in specs
      ensures var r := PhotoshopOf(path, indices, styles, computeIndex, colorCorrect, reband);
        r.Ok? && r.value.removed.Some? ==>
          r.value.removed.value == Rgb(path, reband) && Truthy(specs["thumbnails"]) && r.value.outputs != []
      ensures var r := PhotoshopOf(path, indices, styles, computeIndex, colorCorrect, reband);
        r.Ok? && r.value.removed.None? ==>
          r.value.outputs != [] && r.value.outputs[|r.value.outputs| - 1] == Rgb(path, reband) &&
          (Truthy(specs["thumbnails"]) ==> |r.value.outputs| == 1)
    {
    }

    /** As written, `photoshop` fails exactly when a key it reads is missing
        or the index or style selection fails, with the first failure met;
        otherwise the RGB image is deleted exactly when thumbnails are on,
        and is the last product when kept. */
    lemma PhotoshopAsWrittenOfOutcome(path: string, indices: set<string>, styles: set<string>,
                                      computeIndex: (string, string) -> string, colorCorrect: (string, string) -> string,
                                      reband: string -> string)
      ensures var r := PhotoshopAsWrittenOf(path, indices, styles, computeIndex, colorCorrect, reband);
        r.Ok? <==>
          "landcover_indices" in specs &&
          (Truthy(specs["landcover_indices"]) ==> IndexImages(path, indices, computeIndex).Ok?) &&
          ColorImages(Rgb(path, reband), styles, colorCorrect).Ok? && "thumbnails" in specs
      ensures var r := PhotoshopAsWrittenOf(path, indices, styles, computeIndex, colorCorrect, reband);
        "landcover_indices" in specs && Truthy(specs["landcover_indices"]) &&
          IndexImages(path, indices, computeIndex).Err? ==>
          r == Err(IndexImages(path, indices, computeIndex).error)
      ensures var r := PhotoshopAsWrittenOf(path, indices, styles, computeIndex, colorCorrect, reband);
        "landcover_indices" in specs &&
          (Truthy(specs["landcover_indices"]) ==> IndexImages(path, indices, computeIndex).Ok?) &&
          ColorImages(Rgb(path, reband), styles, colorCorrect).Err? ==>
          r == Err(ColorImages(Rgb(path, reband), styles, colorCorrect).error)
      ensures var r := PhotoshopAsWrittenOf(path, indices, styles, computeIndex, colorCorrect, reband);
        r.Ok? ==> "landcover_indices" in specs && "write_styles" in specs && "thumbnails" in specs
      ensures var r := PhotoshopAsWrittenOf(path, indices, styles, computeIndex, colorCorrect, reband);
        r.Ok? ==> (r.value.removed.Some? <==> Truthy(specs["thumbnails"]))
      ensures var r := PhotoshopAsWrittenOf(path, indices, styles, computeIndex, colorCorrect, reband);
        r.Ok? && r.value.removed.Some? ==> r.value.removed.value == Rgb(path, reband)
      ensures var r := PhotoshopAsWrittenOf(path, indices, styles, computeIndex, colorCorrect, reband);
        r.Ok? && r.value.removed.None? ==>
          r.value.outputs != [] && r.value.outputs[|r.value.outputs| - 1] == Path(Rgb(path, reband))
    {
    }

    /** `photoshop` as written, step by step. */
    method PhotoshopAsWritten(path: string, indices: set<string>, styles: set<string>,
                              computeIndex: (string, string) -> string, colorCorrect: (string, string) -> string,
                              reband: string -> string)
      returns (r: Result<Products<Output>>)
      ensures r == PhotoshopAsWrittenOf(path, indices, styles, computeIndex, colorCorrect, reband)
    {
      if "landcover_indices" !in specs {
        return Err(KeyError);
      }
      var outputPaths: seq<Output> := [];
      var raw := path;
      ghost var first: seq<Output> := [];
      if Truthy(specs["landcover_indices"]) {
        var idx := Indexing(raw, indices, computeIndex);
        if idx.Err? {
          PhotoshopAsWrittenOfOutcome(path, indices, styles, computeIndex, colorCorrect, reband);
          return Err(idx.error);
        }
        outputPaths := outputPaths + [Paths(idx.value)];
        first := [Paths(idx.value)];
        raw := reband(raw);
      }
      var col := Coloring(raw, styles, colorCorrect);
      if col.Err? {
        PhotoshopAsWrittenOfOutcome(path, indices, styles, computeIndex, colorCorrect, reband);
        return Err(col.error);
      }
      outputPaths := outputPaths + [Paths(col.value)];
      assert outputPaths == first + [Paths(col.value)];
      if "thumbnails" !in specs {
        return Err(KeyError);
      }
      var removed := None;
      if Truthy(specs["thumbnails"]) && outputPaths != [] {
        removed := Some(raw);
      } else {
        outputPaths := outputPaths + [Path(raw)];
      }
      assert raw == Rgb(path, reband);
      PhotoshopAsWrittenOfOrder(path, indices, styles, computeIndex, colorCorrect, reband);
      r := Ok(Products(outputPaths, removed));
    }

    /** `photoshop` as evidently intended, step by step. */
    method Photoshop(path: string, indices: set<string>, styles: set<string>,
                     computeIndex: (string, string) -> string, colorCorrect: (string, string) -> string,
                     reband: string -> string)
      returns (r: Result<Products<string>>)
      ensures r == PhotoshopOf(path, indices, styles, computeIndex, colorCorrect, reband)
    {
      if "landcover_indices" !in specs {
        return Err(KeyError);
      }
      var outputPaths: seq<string> := [];
      var raw := path;
      ghost var first: seq<string> := [];
      if Truthy(specs["landcover_indices"]) {
        var idx := Indexing(raw, indices, computeIndex);
        if idx.Err? {
          PhotoshopOfOutcome(path, indices, styles, computeIndex, colorCorrect, reband);
          return Err(idx.error);
        }
        outputPaths := outputPaths + idx.value;
        first := idx.value;
        raw := reband(raw);
      }
      var col := Coloring(raw, styles, colorCorrect);
      if col.Err? {
        PhotoshopOfOutcome(path, indices, styles, computeIndex, colorCorrect, reband);
        return Err(col.error);
      }
      outputPaths := outputPaths + col.value;
      assert outputPaths == first + col.value;
      if "thumbnails" !in specs {
        return Err(KeyError);
      }
      var removed := None;
      if Truthy(specs["thumbnails"]) && outputPaths != [] {
        removed := Some(raw);
      } else {
        outputPaths := outputPaths + [raw];
      }
      assert raw == Rgb(path, reband);
      PhotoshopOfOrder(path, indices, styles, computeIndex, colorCorrect, reband);
      r := Ok(Products(outputPaths, removed));
    }

    /**
     * The two agree, once the nesting is flattened, except when thumbnails
     * are on and neither an index nor a style was selected: then the code as
     * written deletes the only image and returns no path.
     */
    lemma PhotoshopFlattens(path: string, indices: set<string>, styles: set<string>,
                            computeIndex: (string, string) -> string, colorCorrect: (string, string) -> string,
                            reband: string -> string)
      ensures PhotoshopAsWrittenOf(path, indices, styles, computeIndex, colorCorrect, reband).Ok? <==>
              PhotoshopOf(path, indices, styles, computeIndex, colorCorrect, reband).Ok?
      ensures
        var a := PhotoshopAsWrittenOf(path, indices, styles, computeIndex, colorCorrect, reband);
        var c := PhotoshopOf(path, indices, styles, computeIndex, colorCorrect, reband);
        a.Ok? ==>
          ((Flatten(a.value.outputs) == c.value.outputs && a.value.removed == c.value.removed) <==>
           !(Truthy(specs["thumbnails"]) && Flatten(a.value.outputs) == []))
    {
      var a := PhotoshopAsWrittenOf(path, indices, styles, computeIndex, colorCorrect, reband);
      var c := PhotoshopOf(path, indices, styles, computeIndex, colorCorrect, reband);
      PhotoshopAsWrittenOfOutcome(path, indices, styles, computeIndex, colorCorrect, reband);
      PhotoshopOfOutcome(path, indices, styles, computeIndex, colorCorrect, reband);
      if a.Ok? {
        var raw := Rgb(path, reband);
        var li := Truthy(specs["landcover_indices"]);
        var th := Truthy(specs["thumbnails"]);
        var first := if li then IndexImages(path, indices, computeIndex).value else [];
        var colored := ColorImages(raw, styles, colorCorrect).value;
        var nested := (if li then [Paths(first)] else []) + [Paths(colored)];
        PhotoshopAsWrittenOfOrder(path, indices, styles, computeIndex, colorCorrect, reband);
        PhotoshopOfOrder(path, indices, styles, computeIndex, colorCorrect, reband);
        assert a.value.outputs == (if th then nested else nested + [Path(raw)]);
        assert c.value.outputs == (if th && first + colored != [] then first + colored else first + colored + [raw]);
        FlattenNested(li, first, colored);
        if th {
          assert Flatten(a.value.outputs) == first + colored && a.value.removed == Some(raw);
        } else {
          FlattenConcat(nested, [Path(raw)]);
          assert Flatten([Path(raw)]) == [raw] + Flatten([]);
          assert Flatten(a.value.outputs) == first + colored + [raw] && a.value.removed == None;
        }
      }
    }

    /** Every product is the RGB image or an image of a known index or
        style. */
    lemma PhotoshopOfMade(path: string, indices: set<string>, styles: set<string>,
                          computeIndex: (string, string) -> string, colorCorrect: (string, string) -> string,
                          reband: string -> string)
      requires PhotoshopOf(path, indices, styles, computeIndex, colorCorrect, reband).Ok?
      ensures forall p :: p in PhotoshopOf(path, indices, styles, computeIndex, colorCorrect, reband).value.outputs ==>
        p == Rgb(path, reband) ||
        (exists x :: x in indices && p == computeIndex(path, Lower(x))) ||
        (exists x :: x in styles && p == colorCorrect(Lower(x), Rgb(path, reband)))
    {
      PhotoshopOfOutcome(path, indices, styles, computeIndex, colorCorrect, reband);
      PhotoshopOfOrder(path, indices, styles, computeIndex, colorCorrect, reband);
      if Truthy(specs["landcover_indices"]) {
        IndexImagesInOrder(path, indices, computeIndex);
      }
      ColorImagesInOrder(Rgb(path, reband), styles, colorCorrect);
    }

    /** With no index, no known style and thumbnails on, the code as written
        deletes the raw image and returns one empty list; the intended
        behaviour keeps the image and returns its path. */
    lemma PhotoshopNestingWitness(path: string, indices: set<string>, styles: set<string>,
                                  computeIndex: (string, string) -> string, colorCorrect: (string, string) -> string,
                                  reband: string -> string)
      requires specs == map["landcover_indices" := JList([]), "write_styles" := JList([]), "thumbnails" := JBool(true)]
      ensures PhotoshopAsWrittenOf(path, indices, styles, computeIndex, colorCorrect, reband) == Ok(Products([Paths([])], Some(path)))
      ensures PhotoshopOf(path, indices, styles, computeIndex, colorCorrect, reband) == Ok(Products([path], None))
    {
      assert !Truthy(specs["landcover_indices"]) && Truthy(specs["thumbnails"]);
      assert Rgb(path, reband) == path;
      assert SelectKnown(JList([]), styles, true) == Ok([]);
      assert ColorImages(path, styles, colorCorrect) == Ok([]);
      assert [] + [Paths([])] == [Paths([])];
      assert [] + [] + [path] == [path];
    }
  }

  /** The paths of a nested output list, in order. */
  function Flatten(outputs: seq<Output>): (r: seq<string>)
    ensures |r| >= |outputs| - CountNested(outputs)
  {
    if outputs == [] then []
    else PathsOf(outputs[0]) + Flatten(outputs[1..])
  }

  function PathsOf(o: Output): seq<string>
  {
    match o
    case Path(p) => [p]
    case Paths(ps) => ps
  }

  function CountNested(outputs: seq<Output>): nat
  {
    if outputs == [] then 0 else (if outputs[0].Paths? then 1 else 0) + CountNested(outputs[1..])
  }

  /** The nested output list of `photoshop` flattens to its index images
      followed by its color images. */
  lemma FlattenNested(indexed: bool, first: seq<string>, colored: seq<string>)
    requires !indexed ==> first == []
    ensures Flatten((if indexed then [Paths(first)] else []) + [Paths(colored)]) == first + colored
  {
    FlattenConcat(if indexed then [Paths(first)] else [], [Paths(colored)]);
    assert Flatten([Paths(colored)]) == colored + Flatten([]);
    if indexed {
      assert Flatten([Paths(first)]) == first + Flatten([]);
    }
  }

  lemma {:induction false} FlattenConcat(a: seq<Output>, b: seq<Output>)
    ensures Flatten(a + b) == Flatten(a) + Flatten(b)
    decreases |a|
  {
    if a == [] {
      assert a + b == b;
    } else {
      assert (a + b)[0] == a[0];
      assert (a + b)[1..] == a[1..] + b;
      FlattenConcat(a[1..], b);
      assert Flatten(a + b) == PathsOf(a[0]) + Flatten(a[1..] + b);
    }
  }
}
