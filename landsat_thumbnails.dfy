/**
 * The Landsat thumbnail grabber: it mirrors the provider grabbers but pulls
 * 90-day composites from a web app, so the scenes are a schedule of end
 * dates and the post-processing is color correction only.
 *
 * Dates are day numbers; `iso` writes a day number as an ISO date and
 * `parse` reads one back (None where dateutil cannot parse the text).
 */
module LandsatThumbnails {
  import opened Wrappers
  import opened Json
  import opened Py
  import Grabber

  const DefaultAppUrl: string := "http://earthrise-assets.herokuapp.com/nasa/image"
  const DefaultStylesOverride: seq<string> := ["landsat"]

  /** Each date is the ISO form of the day `skip` days before the previous
      one, as parsed. */
  predicate StepsBack(dates: seq<Json>, parse: string -> Option<int>, iso: int -> string, skip: int)
  {
    forall k :: 0 <= k < |dates| - 1 ==> StepBack(dates[k], dates[k + 1], parse, iso, skip)
  }

  predicate StepBack(previous: Json, next: Json, parse: string -> Option<int>, iso: int -> string, skip: int)
  {
    previous.JStr? && parse(previous.s).Some? && next == JStr(iso(parse(previous.s).value - skip))
  }

  /**
   * How many calendar days `timedelta(days=j)` moves a midnight date back:
   * the number itself for a whole number (a bool counts as 0 or 1), its
   * ceiling for a fractional one, since `.date()` drops the time of day the
   * subtraction leaves. Anything else is not a number of days.
   */
  function AsDays(j: Json): (r: Option<int>)
    ensures r.Some? <==> AsReal(j).Some?
    ensures j.JInt? ==> r == Some(j.i)
    ensures r.Some? ==> AsReal(j).value <= r.value as real < AsReal(j).value + 1.0
  {
    match j
    case JInt(i) => Some(i)
    case JBool(b) => Some(if b then 1 else 0)
    case JNum(x) => Some(-((-x).Floor))
    case _ => None
  }

  /**
   * When `iso` and `parse` are inverse, a schedule that steps back from a
   * first date d0 lists d0, d0 - skip, d0 - 2 * skip, ...
   */
  lemma {:induction false} StepsBackArithmetic(dates: seq<Json>, parse: string -> Option<int>, iso: int -> string,
                                               skip: int, d0: int)
    requires forall d :: parse(iso(d)) == Some(d)
    requires |dates| >= 1 && dates[0].JStr? && parse(dates[0].s) == Some(d0)
    requires StepsBack(dates, parse, iso, skip)
    ensures forall k :: 1 <= k < |dates| ==> dates[k] == JStr(iso(d0 - k * skip))
    decreases |dates|
  {
    if |dates| > 1 {
      var front := dates[..|dates| - 1];
      assert StepsBack(front, parse, iso, skip);
      StepsBackArithmetic(front, parse, iso, skip, d0);
      var n := |dates| - 1;
      if n > 1 {
        assert dates[n - 1] == front[n - 1] == JStr(iso(d0 - (n - 1) * skip));
        assert parse(dates[n - 1].s) == Some(d0 - (n - 1) * skip);
        assert d0 - (n - 1) * skip - skip == d0 - n * skip;
      }
    }
  }

  class LandsatThumbnails {
    var appUrl: string
    /** Catalog and image specs. */
    var specs: map<string, Json>

    /** The default specs, with write_styles replaced by the override, then
        updated with the keyword arguments: a user's write_styles wins. */
    constructor (appUrl: string, defaults: map<string, Json>, stylesOverride: seq<string>, overrides: map<string, Json>)
      ensures this.appUrl == appUrl
      ensures specs.Keys == defaults.Keys + {"write_styles"} + overrides.Keys
      ensures specs["write_styles"] == if "write_styles" in overrides then overrides["write_styles"] else JList(Strs(stylesOverride))
      ensures forall k :: k in overrides ==> specs[k] == overrides[k]
      ensures forall k :: k in defaults && k !in overrides && k != "write_styles" ==> specs[k] == defaults[k]
    {
      this.appUrl := appUrl;
      specs := defaults["write_styles" := JList(Strs(stylesOverride))] + overrides;
    }

    /** The days skip_days steps back by, when it is a number. */
    function SkipDays(): Option<int>
      reads this
    {
      if "skip_days" in specs then AsDays(specs["skip_days"]) else None
    }

    /**
     * `prep_scenes`: the end dates of the composites to pull, newest first.
     * The first is the endDate spec if it is set and today otherwise; the
     * list grows until it holds N_images dates (so it holds max(1, N_images)
     * rounded up), each skip_days before the previous.
     */
    method PrepScenes(today: int, parse: string -> Option<int>, iso: int -> string) returns (r: Result<seq<Json>>)
      ensures "endDate" !in specs ==> r == Err(KeyError)
      ensures "endDate" in specs && "N_images" !in specs ==> r == Err(KeyError)
      ensures "endDate" in specs && "N_images" in specs && AsReal(specs["N_images"]).None? ==> r == Err(TypeError)
      ensures r.Ok? ==>
        |r.value| >= 1 &&
        r.value[0] == (if Truthy(specs["endDate"]) then specs["endDate"] else JStr(iso(today)))
      ensures r.Ok? ==>
        "N_images" in specs && AsReal(specs["N_images"]).Some? &&
        (|r.value| as real) >= AsReal(specs["N_images"]).value &&
        (|r.value| > 1 ==> ((|r.value| - 1) as real) < AsReal(specs["N_images"]).value)
      ensures r.Ok? && |r.value| > 1 ==> SkipDays().Some? && StepsBack(r.value, parse, iso, SkipDays().value)
      ensures "endDate" in specs && "N_images" in specs && AsReal(specs["N_images"]).Some? &&
              AsReal(specs["N_images"]).value <= 1.0 ==>
        r == Ok([if Truthy(specs["endDate"]) then specs["endDate"] else JStr(iso(today))])
      ensures "endDate" in specs && "N_images" in specs && AsReal(specs["N_images"]).Some? && SkipDays().Some? &&
              (forall d :: parse(iso(d)) == Some(d)) &&
              (Truthy(specs["endDate"]) ==> specs["endDate"].JStr? && parse(specs["endDate"].s).Some?) ==>
        r.Ok?
    {
      if "endDate" !in specs {
        return Err(KeyError);
      }
      var first := if Truthy(specs["endDate"]) then specs["endDate"] else JStr(iso(today));
      var enddates := [first];
      if "N_images" !in specs {
        return Err(KeyError);
      }
      var n := AsReal(specs["N_images"]);
      if n.None? {
        return Err(TypeError);
      }
      while (|enddates| as real) < n.value
        invariant 1 <= |enddates| && enddates[0] == first
        invariant |enddates| > 1 ==> ((|enddates| - 1) as real) < n.value
        invariant |enddates| > 1 ==> SkipDays().Some? && StepsBack(enddates, parse, iso, SkipDays().value)
        invariant |enddates| > 1 ==> enddates[|enddates| - 1].JStr? && enddates[|enddates| - 1].s == iso(parse(enddates[|enddates| - 2].s).value - SkipDays().value)
        decreases n.value.Floor + 1 - |enddates|
      {
        var last := enddates[|enddates| - 1];
        if !last.JStr? {
          return Err(TypeError);
        }
        var day := parse(last.s);
        if day.None? {
          return Err(ValueError);
        }
        if "skip_days" !in specs {
          return Err(KeyError);
        }
        var skip := AsDays(specs["skip_days"]);
        if skip.None? {
          return Err(TypeError);
        }
        enddates := enddates + [JStr(iso(day.value - skip.value))];
      }
      if n.value <= 1.0 {
        assert enddates == [first];
      }
      r := Ok(enddates);
    }

    /**
     * `color_process`: one color-corrected image per requested style among
     * `known` (the keys of color.STYLES), lower-cased and in the requested
     * order, then the raw image unless thumbnails are on, in which case it
     * is deleted. `colorCorrect(style, path)` stands for
     * color.ColorCorrect(style=style)(path).
     */
    function ColorProcessOf(path: string, known: set<string>, colorCorrect: (string, string) -> string): Result<Grabber.Products<string>>
      reads this
    {
      if "write_styles" !in specs then Err(KeyError)
      else
        var styles :- SelectKnown(specs["write_styles"], known, true);
        var made := seq(|styles|, k requires 0 <= k < |styles| => colorCorrect(styles[k], path));
        if "thumbnails" !in specs then Err(KeyError)
        else if Truthy(specs["thumbnails"]) then Ok(Grabber.Products(made, Some(path)))
        else Ok(Grabber.Products(made + [path], None))
    }

    /** What `color_process` returns and fails with. */
    lemma ColorProcessOfOutcome(path: string, known: set<string>, colorCorrect: (string, string) -> string)
      ensures var r := ColorProcessOf(path, known, colorCorrect);
        "write_styles" !in specs ==> r == Err(KeyError)
      ensures var r := ColorProcessOf(path, known, colorCorrect);
        "write_styles" in specs && SelectKnown(specs["write_styles"], known, true).Err? ==>
          r == Err(SelectKnown(specs["write_styles"], known, true).error)
      ensures var r := ColorProcessOf(path, known, colorCorrect);
        "write_styles" in specs && SelectKnown(specs["write_styles"], known, true).Ok? && "thumbnails" !in specs ==>
          r == Err(KeyError)
      ensures var r := ColorProcessOf(path, known, colorCorrect);
        r.Ok? ==>
          "write_styles" in specs && "thumbnails" in specs &&
          var selected := SelectKnown(specs["write_styles"], known, true).value;
          var made := r.value.outputs;
          |made| == |selected| + (if Truthy(specs["thumbnails"]) then 0 else 1) &&
          (forall k :: 0 <= k < |selected| ==> made[k] == colorCorrect(selected[k], path)) &&
          (r.value.removed.Some? <==> Truthy(specs["thumbnails"])) &&
          (r.value.removed.Some? ==> r.value.removed.value == path) &&
          (r.value.removed.None? ==> made[|made| - 1] == path)
      ensures var r := ColorProcessOf(path, known, colorCorrect);
        r.Ok? ==> forall p :: p in r.value.outputs ==> p == path || exists x :: x in known && p == colorCorrect(Lower(x), path)
    {
      if "write_styles" in specs && SelectKnown(specs["write_styles"], known, true).Ok? {
        SelectKnownMembers(specs["write_styles"], known, true);
        var styles := SelectKnown(specs["write_styles"], known, true).value;
        var made := seq(|styles|, k requires 0 <= k < |styles| => colorCorrect(styles[k], path));
        forall p | p in made
          ensures exists x :: x in known && p == colorCorrect(Lower(x), path)
        {
          var k :| 0 <= k < |made| && made[k] == p;
          assert styles[k] in styles;
        }
      }
    }

    /** `color_process`, style by style. */
    method ColorProcess(path: string, known: set<string>, colorCorrect: (string, string) -> string)
      returns (r: Result<Grabber.Products<string>>)
      ensures r == ColorProcessOf(path, known, colorCorrect)
    {
      if "write_styles" !in specs {
        return Err(KeyError);
      }
      var styles := SelectKnown(specs["write_styles"], known, true);
      if styles.Err? {
        return Err(styles.error);
      }
      var outputPaths := [];
      for i := 0 to |styles.value|
        invariant |outputPaths| == i
        invariant forall k :: 0 <= k < i ==> outputPaths[k] == colorCorrect(styles.value[k], path)
      {
        var outpath := colorCorrect(styles.value[i], path);
        outputPaths := outputPaths + [outpath];
      }
      assert outputPaths == seq(|styles.value|, k requires 0 <= k < |styles.value| => colorCorrect(styles.value[k], path));
      if "thumbnails" !in specs {
        return Err(KeyError);
      }
      if Truthy(specs["thumbnails"]) {
        r := Ok(Grabber.Products(outputPaths, Some(path)));
      } else {
        r := Ok(Grabber.Products(outputPaths + [path], None));
      }
    }
  }
}
