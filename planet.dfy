/**
 * The Planet grabber's scene compilation: catalog records (newest first) are
 * grouped by acquisition day and by (satellite id, item type); groups that
 * overlap the box too little are dropped; of the item types one satellite
 * delivered on a day, only the first in the preference order is kept; and
 * scenes are collected until there are N_images of them, with the
 * skip_days fast-forward between days.
 *
 * A catalog record is reduced to the fields this logic reads: its id,
 * satellite id, item type, acquisition day (a day number) and EPSG code.
 * The raw record dict appears only in `Clean`.
 */
module Planet {
  import opened Wrappers
  import opened Json
  import opened Py
  import opened Grabber

  /** Item types in order of preference. */
  const KnownItemTypes: seq<string> := ["PSScene4Band", "PSScene3Band", "PSOrthoTile", "REOrthoTile", "SkySatScene"]

  /** Planet property names to the standard record keys. */
  const KeyMap: map<string, string> := map[
    "provider" := "provider", "item_type" := "item_type", "asset_type" := "asset_type",
    "acquired" := "timestamp", "cloud_cover" := "clouds", "pixel_resolution" := "resolution",
    "gsd" := "gsd", "epsg_code" := "epsg_code", "satellite_id" := "satellite_id"]

  datatype Rec = Rec(id: string, satId: string, itemType: string, day: int, epsg: Json)

  type Key = (string, string)
  type Groups = map<Key, seq<Rec>>
  type Scene = seq<Rec>

  function KeyOf(r: Rec): Key { (r.satId, r.itemType) }

  function DayOf(r: Rec): int { r.day }

  /** A scene: records of one satellite, item type and day. */
  predicate IsScene(s: Scene) {
    |s| > 0 && forall x :: x in s ==> x.day == s[0].day && KeyOf(x) == KeyOf(s[0])
  }

  // ----- _clean -------------------------------------------------------------

  /** `s * n` for a sequence. */
  function Repeat<T>(s: seq<T>, n: nat): (r: seq<T>)
    ensures |r| == |s| * n
  {
    if n == 0 then [] else s + Repeat(s, n - 1)
  }

  /** `x * 100`: numbers scale, strings and lists repeat, anything else fails. */
  function Times100(j: Json): (r: Result<Json>)
    ensures r.Err? <==> !(j.JInt? || j.JNum? || j.JBool? || j.JStr? || j.JList?)
    ensures j.JInt? ==> r == Ok(JInt(100 * j.i))
    ensures j.JNum? ==> r == Ok(JNum(100.0 * j.r))
  {
    match j
    case JInt(i) => Ok(JInt(100 * i))
    case JNum(x) => Ok(JNum(100.0 * x))
    case JBool(b) => Ok(JInt(if b then 100 else 0))
    case JStr(s) => Ok(JStr(Repeat(s, 100)))
    case JList(xs) => Ok(JList(Repeat(xs, 100)))
    case _ => Err(TypeError)
  }

  /** The standard names: the values of KeyMap. */
  const StandardNames: set<string> := {"provider", "item_type", "asset_type", "timestamp", "clouds", "resolution", "gsd", "epsg_code", "satellite_id"}

  /** The Planet property a standard name comes from. */
  function PlanetName(s: string): string {
    if s == "timestamp" then "acquired"
    else if s == "clouds" then "cloud_cover"
    else if s == "resolution" then "pixel_resolution"
    else s
  }

  /** KeyMap is a bijection onto the standard names with inverse PlanetName,
      so renaming loses nothing, and no standard name is a link key. */
  lemma KeyMapInverse()
    ensures forall k :: k in KeyMap ==> KeyMap[k] in StandardNames && PlanetName(KeyMap[k]) == k
    ensures forall s :: s in StandardNames ==> PlanetName(s) in KeyMap && KeyMap[PlanetName(s)] == s
    ensures forall s :: s in StandardNames ==> s !in {"catalogID", "thumbnail", "full_record"}
  {
    forall k | k in KeyMap
      ensures KeyMap[k] in StandardNames && PlanetName(KeyMap[k]) == k
    {
      if k == "acquired" {
        assert KeyMap[k] == "timestamp";
      } else if k == "cloud_cover" {
        assert KeyMap[k] == "clouds";
      } else if k == "pixel_resolution" {
        assert KeyMap[k] == "resolution";
      } else {
        assert KeyMap[k] == k;
      }
    }
    forall s | s in StandardNames
      ensures PlanetName(s) in KeyMap && KeyMap[PlanetName(s)] == s
    {
      if s == "timestamp" {
        assert PlanetName(s) == "acquired";
      } else if s == "clouds" {
        assert PlanetName(s) == "cloud_cover";
      } else if s == "resolution" {
        assert PlanetName(s) == "pixel_resolution";
      } else {
        assert PlanetName(s) == s;
      }
    }
  }

  /** `{KEYMAP[k]: v for k, v in props.items() if k in KEYMAP}`, written by
      the standard names it produces. */
  function Renamed(props: map<string, Json>): (r: map<string, Json>)
  {
    map s | s in StandardNames && PlanetName(s) in props :: props[PlanetName(s)]
  }

  /** Every known property is kept under its standard name, and nothing else
      is produced. */
  lemma RenamedKeepsProperties(props: map<string, Json>)
    ensures forall k :: k in props && k in KeyMap ==> KeyMap[k] in Renamed(props) && Renamed(props)[KeyMap[k]] == props[k]
    ensures forall s :: s in Renamed(props) ==> PlanetName(s) in props && PlanetName(s) in KeyMap && KeyMap[PlanetName(s)] == s
  {
    KeyMapInverse();
  }

  /**
   * `_clean`: a standard record with the catalog id, the thumbnail and
   * self links, every known property under its standard name, and the
   * cloud cover as a percentage.
   */
  function Clean(record: map<string, Json>): (r: Result<map<string, Json>>)
    ensures "id" !in record || "_links" !in record ==> r == Err(KeyError)
    ensures r.Ok? <==> Shaped(record) && "cloud_cover" in Props(record) && Times100(Props(record)["cloud_cover"]).Ok?
    ensures Shaped(record) && "cloud_cover" !in Props(record) ==> r == Err(KeyError)
    ensures Shaped(record) && "cloud_cover" in Props(record) && Times100(Props(record)["cloud_cover"]).Err? ==>
      r == Err(TypeError)
    ensures r.Ok? ==>
      var links := record["_links"].fields;
      var props := Props(record);
      "catalogID" in r.value && r.value["catalogID"] == record["id"] &&
      "thumbnail" in r.value && r.value["thumbnail"] == links["thumbnail"] &&
      "full_record" in r.value && r.value["full_record"] == links["_self"] &&
      "clouds" in r.value && r.value["clouds"] == Times100(props["cloud_cover"]).value
  {
    if "id" !in record || "_links" !in record then Err(KeyError)
    else if !record["_links"].JObj? then Err(TypeError)
    else
      var links := record["_links"].fields;
      if "thumbnail" !in links || "_self" !in links || "properties" !in record then Err(KeyError)
      else if !record["properties"].JObj? then Err(AttributeError)
      else
        var cleaned := Cleaned(record);
        if "clouds" !in cleaned then Err(KeyError)
        else
          var clouds :- Times100(cleaned["clouds"]);
          Ok(cleaned["clouds" := clouds])
  }

  /** A clean record holds the link keys and exactly the standard names of
      the known properties; every known property other than the cloud cover
      is kept as it was. */
  lemma CleanKeepsProperties(record: map<string, Json>)
    requires Clean(record).Ok?
    ensures Shaped(record)
    ensures forall s :: s in Clean(record).value <==>
      s in {"catalogID", "thumbnail", "full_record"} || (s in StandardNames && PlanetName(s) in Props(record))
    ensures forall k :: k in Props(record) && k in KeyMap && k != "cloud_cover" ==>
      Clean(record).value[KeyMap[k]] == Props(record)[k]
  {
    CleanedKeepsProperties(record);
  }

  /** The standard record before the cloud cover is scaled. The link keys
      are not standard names (KeyMapInverse), so the order of the updates
      does not matter. */
  function Cleaned(record: map<string, Json>): (r: map<string, Json>)
    requires Shaped(record)
    ensures "catalogID" in r && r["catalogID"] == record["id"]
    ensures "thumbnail" in r && r["thumbnail"] == record["_links"].fields["thumbnail"]
    ensures "full_record" in r && r["full_record"] == record["_links"].fields["_self"]
    ensures forall s :: s in r <==> s in {"catalogID", "thumbnail", "full_record"} || s in Renamed(Props(record))
  {
    Renamed(Props(record))["catalogID" := record["id"]]["thumbnail" := record["_links"].fields["thumbnail"]]
      ["full_record" := record["_links"].fields["_self"]]
  }

  /** Every known property survives cleaning under its standard name. */
  lemma CleanedKeepsProperties(record: map<string, Json>)
    requires Shaped(record)
    ensures forall k :: k in Props(record) && k in KeyMap ==> Cleaned(record)[KeyMap[k]] == Props(record)[k]
  {
    var props := Props(record);
    var renamed := Renamed(props);
    RenamedKeepsProperties(props);
    forall k | k in props && k in KeyMap
      ensures Cleaned(record)[KeyMap[k]] == props[k]
    {
      var s := KeyMap[k];
      assert s in renamed && s in StandardNames;
      assert s != "catalogID" && s != "thumbnail" && s != "full_record";
      assert Cleaned(record)[s] == renamed[s];
    }
  }

  /** A record with an id, thumbnail and self links, and a properties dict. */
  predicate Shaped(record: map<string, Json>) {
    "id" in record && "_links" in record && record["_links"].JObj? &&
    "thumbnail" in record["_links"].fields && "_self" in record["_links"].fields &&
    "properties" in record && record["properties"].JObj?
  }

  function Props(record: map<string, Json>): map<string, Json>
    requires Shaped(record)
  {
    record["properties"].fields
  }

  // ----- Grouping a day's records ------------------------------------------

  /** The records of `rs` with key `k`, in order. */
  function WithKey(rs: seq<Rec>, k: Key): (r: seq<Rec>)
    ensures forall x :: x in r <==> x in rs && KeyOf(x) == k
    decreases |rs|
  {
    if rs == [] then []
    else WithKey(rs[..|rs| - 1], k) + (if KeyOf(rs[|rs| - 1]) == k then [rs[|rs| - 1]] else [])
  }

  /**
   * The dict `_group_day` builds, record by record: each key (satellite id,
   * item type) maps to that key's records in order, and every record is
   * under its key.
   */
  function Group(rs: seq<Rec>): (g: Groups)
    ensures forall k :: k in g <==> WithKey(rs, k) != []
    ensures forall k :: k in g ==> g[k] == WithKey(rs, k)
    decreases |rs|
  {
    if rs == [] then map[]
    else
      var init := rs[..|rs| - 1];
      var g := Group(init);
      var x := rs[|rs| - 1];
      assert rs == init + [x];
      GroupStep(init, x, g);
      g[KeyOf(x) := (if KeyOf(x) in g then g[KeyOf(x)] else []) + [x]]
  }

  /** Adding one record to the groups of `init` gives the groups of
      `init + [x]`. */
  lemma GroupStep(init: seq<Rec>, x: Rec, g: Groups)
    requires forall k :: k in g <==> WithKey(init, k) != []
    requires forall k :: k in g ==> g[k] == WithKey(init, k)
    ensures var g' := g[KeyOf(x) := (if KeyOf(x) in g then g[KeyOf(x)] else []) + [x]];
      (forall k :: k in g' <==> WithKey(init + [x], k) != []) &&
      (forall k :: k in g' ==> g'[k] == WithKey(init + [x], k))
  {
    assert (init + [x])[..|init|] == init;
  }

  /** The records of a day's groups are scenes of that day. */
  lemma GroupOfDay(rs: seq<Rec>, day: int)
    requires forall x :: x in rs ==> x.day == day
    ensures forall k :: k in Group(rs) ==> IsScene(Group(rs)[k]) && Group(rs)[k][0].day == day
  {
    var g := Group(rs);
    forall k | k in g
      ensures IsScene(g[k]) && g[k][0].day == day
    {
      assert g[k][0] in g[k];
    }
  }

  /** One past the last record of the day run starting at `start`. */
  function RunEnd(records: seq<Rec>, start: nat): (e: nat)
    requires start < |records|
    ensures start < e <= |records|
    ensures forall k :: start <= k < e ==> records[k].day == records[start].day
    ensures e < |records| ==> records[e].day != records[start].day
  {
    RunEndFrom(records, records[start].day, start + 1)
  }

  function RunEndFrom(records: seq<Rec>, day: int, i: nat): (e: nat)
    requires i <= |records|
    ensures i <= e <= |records|
    ensures forall k :: i <= k < e ==> records[k].day == day
    ensures e < |records| ==> records[e].day != day
    decreases |records| - i
  {
    if i < |records| && records[i].day == day then RunEndFrom(records, day, i + 1) else i
  }

  // ----- _filter_copies -------------------------------------------------------

  /** The group of the first item type in the preference order, from `j` on,
      that `sat` delivered. */
  function PreferredFrom(groups: Groups, sat: string, j: nat): (r: Option<Scene>)
    ensures r.None? <==> forall t :: j <= t < |KnownItemTypes| ==> (sat, KnownItemTypes[t]) !in groups
    ensures r.Some? ==>
      exists t :: j <= t < |KnownItemTypes| && (sat, KnownItemTypes[t]) in groups &&
        r.value == groups[(sat, KnownItemTypes[t])] &&
        forall u :: j <= u < t ==> (sat, KnownItemTypes[u]) !in groups
    decreases |KnownItemTypes| - j
  {
    if j >= |KnownItemTypes| then None
    else if (sat, KnownItemTypes[j]) in groups then Some(groups[(sat, KnownItemTypes[j])])
    else PreferredFrom(groups, sat, j + 1)
  }

  function Preferred(groups: Groups, sat: string): Option<Scene>
  {
    PreferredFrom(groups, sat, 0)
  }

  /** The preferred group of each satellite, in the order given. */
  function Preferreds(groups: Groups, sats: seq<string>): (r: seq<Scene>)
    ensures |r| <= |sats|
    ensures forall s :: s in r ==> exists sat :: sat in sats && Preferred(groups, sat) == Some(s)
    ensures forall sat :: sat in sats && Preferred(groups, sat).Some? ==> Preferred(groups, sat).value in r
    decreases |sats|
  {
    if sats == [] then []
    else
      var sat := sats[|sats| - 1];
      var p := Preferred(groups, sat);
      Preferreds(groups, sats[..|sats| - 1]) + (if p.Some? then [p.value] else [])
  }

  /** Every kept scene is one of the groups. */
  lemma PreferredsAreGroups(groups: Groups, sats: seq<string>)
    ensures forall s :: s in Preferreds(groups, sats) ==> exists k :: k in groups && groups[k] == s
  {
    forall s | s in Preferreds(groups, sats)
      ensures exists k :: k in groups && groups[k] == s
    {
      var sat :| sat in sats && Preferred(groups, sat) == Some(s);
      var t :| 0 <= t < |KnownItemTypes| && (sat, KnownItemTypes[t]) in groups && s == groups[(sat, KnownItemTypes[t])];
    }
  }

  function SatIds(groups: Groups): set<string> {
    set k | k in groups :: k.0
  }

  /** `scenes` is what `_filter_copies` makes of `groups` for some iteration
      order of the satellite ids. */
  ghost predicate CopiesFiltered(groups: Groups, scenes: seq<Scene>) {
    exists sats :: Distinct(sats) && (forall s :: s in sats <==> s in SatIds(groups)) && scenes == Preferreds(groups, sats)
  }

  // ----- Scenes across days ----------------------------------------------------

  /** The catalog order: newest first. */
  predicate NewestFirst(records: seq<Rec>) {
    forall i, j :: 0 <= i < j < |records| ==> records[i].day >= records[j].day
  }

  /** The groups `_group_day` builds for the day run starting at `i`. */
  function DayGroups(records: seq<Rec>, i: nat): Groups
    requires i < |records|
  {
    Group(records[i..RunEnd(records, i)])
  }

  /** `s` is one (satellite, item type) group of some day's records. */
  predicate DayGroup(records: seq<Rec>, s: Scene) {
    exists i, k :: 0 <= i < |records| && k in DayGroups(records, i) && s == DayGroups(records, i)[k]
  }

  /** The scenes a visited day adds before any N_images cut: with skip_days
      set only its first, otherwise all of them. */
  function DayTake(grouped: seq<Scene>, skip: bool): seq<Scene> {
    if skip && grouped != [] then grouped[..1] else grouped
  }

  /** The scenes of the visited days, `picks`, in order, before any
      N_images cut. */
  function Gathered(picks: seq<seq<Scene>>, skip: bool): seq<Scene>
    decreases |picks|
  {
    if picks == [] then [] else Gathered(picks[..|picks| - 1], skip) + DayTake(picks[|picks| - 1], skip)
  }

  lemma GatheredSnoc(picks: seq<seq<Scene>>, grouped: seq<Scene>, skip: bool)
    ensures Gathered(picks + [grouped], skip) == Gathered(picks, skip) + DayTake(grouped, skip)
  {
    assert (picks + [grouped])[..|picks|] == picks;
  }

  /** Fewer than one more than `n` items means no more than `n`. */
  lemma CountBelow(count: nat, n: int, bound: real)
    requires bound == n as real && (count == 0 || ((count - 1) as real) < bound)
    ensures count <= Max(0, n)
  {
  }

  /** What a day's take adds comes from the day's scenes, in order; with
      skip_days set it is at most the first of them. */
  lemma TakenFrom(scenes: seq<Scene>, grouped: seq<Scene>, taken: seq<Scene>, skip: bool)
    requires scenes <= taken <= scenes + DayTake(grouped, skip)
    ensures |scenes| <= |taken| <= |scenes| + |grouped| && taken[..|scenes|] == scenes
    ensures skip ==> |taken| <= |scenes| + 1
    ensures |taken| > |scenes| ==> |grouped| > 0 && taken[|scenes|] == grouped[0]
    ensures forall s :: s in taken ==> s in scenes || s in grouped
  {
    var add := DayTake(grouped, skip);
    assert taken == scenes + add[..|taken| - |scenes|];
    assert forall s :: s in add ==> s in grouped;
  }

  /** `taken` is the scenes so far followed by a prefix of what the day
      adds, all of it unless N_images scenes are reached, and not past
      N_images. */
  predicate DayTaken(scenes: seq<Scene>, grouped: seq<Scene>, taken: seq<Scene>, nImages: real, skip: bool) {
    scenes <= taken <= scenes + DayTake(grouped, skip) &&
    (taken == scenes + DayTake(grouped, skip) || (|taken| as real) >= nImages) &&
    (taken == [] || ((|taken| - 1) as real) < nImages)
  }

  /** Scenes of strictly older days, one after the other. */
  predicate Decreasing(scenes: seq<Scene>) {
    forall i, j :: 0 <= i < j < |scenes| ==> |scenes[i]| > 0 && |scenes[j]| > 0 && scenes[i][0].day > scenes[j][0].day
  }

  lemma SliceMembers(records: seq<Rec>, a: nat, b: nat)
    requires a <= b <= |records|
    ensures forall x :: x in records[a..b] ==> x in records
  {
    forall x | x in records[a..b]
      ensures x in records
    {
      var j :| 0 <= j < b - a && records[a..b][j] == x;
      assert records[a + j] == x;
    }
  }

  /** The records of a day run are all of that day. */
  lemma RunOfDay(records: seq<Rec>, first: nat)
    requires first < |records|
    ensures forall x :: x in records[first..RunEnd(records, first)] ==> x.day == records[first].day
  {
    var run := records[first..RunEnd(records, first)];
    forall x | x in run
      ensures x.day == records[first].day
    {
      var j :| 0 <= j < |run| && run[j] == x;
      assert records[first + j] == x;
    }
  }

  /** In the catalog order, a record past the day run of `first` is of an
      older day. */
  lemma NewestFirstPast(records: seq<Rec>, first: nat, m: nat)
    requires NewestFirst(records) && first < |records|
    requires RunEnd(records, first) <= m < |records|
    ensures records[m].day < records[first].day
  {
    var e := RunEnd(records, first);
    assert records[e].day != records[first].day;
  }

  // ----- _reorder --------------------------------------------------------------

  /** The last of `paths` that contains `id`. */
  function LastContaining(paths: seq<string>, id: string): (r: Option<string>)
    ensures r.None? <==> forall p :: p in paths ==> !Contains(p, id)
    ensures r.Some? ==> r.value in paths && Contains(r.value, id)
    decreases |paths|
  {
    if paths == [] then None
    else
      var init := paths[..|paths| - 1];
      var last := paths[|paths| - 1];
      assert paths == init + [last];
      if Contains(last, id) then
        assert last in paths;
        Some(last)
      else
        var r := LastContaining(init, id);
        assert r.Some? ==> r.value in paths;
        assert r.None? ==> forall p :: p in paths ==> !Contains(p, id) by {
          if r.None? {
            forall p | p in paths
              ensures !Contains(p, id)
            {
              assert p in init || p == last;
            }
          }
        }
        r
  }

  /**
   * What `_reorder` returns: slot n of a list as long as `paths` holds the
   * last path containing the id of `records[n]`, or None. A record whose
   * slot is past the end of the list but whose id is in some path makes the
   * assignment fail (IndexError).
   */
  function ReorderOf(paths: seq<string>, records: seq<Rec>): (r: Result<seq<Option<string>>>)
    ensures r.Err? <==> exists n :: |paths| <= n < |records| && LastContaining(paths, records[n].id).Some?
    ensures r.Err? ==> r.error == IndexError
    ensures r.Ok? ==> |r.value| == |paths|
    ensures r.Ok? ==> forall n :: 0 <= n < |paths| ==>
      (r.value[n].Some? ==> n < |records| && r.value[n].value in paths && Contains(r.value[n].value, records[n].id)) &&
      (r.value[n].None? <==> n >= |records| || forall p :: p in paths ==> !Contains(p, records[n].id))
  {
    if exists n :: |paths| <= n < |records| && LastContaining(paths, records[n].id).Some? then Err(IndexError)
    else Ok(seq(|paths|, n requires 0 <= n < |paths| =>
      if n < |records| then LastContaining(paths, records[n].id) else None))
  }

  /** A record whose id is in exactly one path gets that path. */
  lemma ReorderUnique(paths: seq<string>, records: seq<Rec>, n: nat, p: string)
    requires n < |records| && n < |paths| && ReorderOf(paths, records).Ok?
    requires p in paths && Contains(p, records[n].id)
    requires forall q :: q in paths && Contains(q, records[n].id) ==> q == p
    ensures ReorderOf(paths, records).value[n] == Some(p)
  {
  }

  // ----- _validate_landcover_specs -------------------------------------------

  /** Where `x` first occurs in `xs`. */
  function FirstIndex(xs: seq<Json>, x: Json): (i: nat)
    requires x in xs
    ensures i < |xs| && xs[i] == x && x !in xs[..i]
  {
    if xs[0] == x then 0
    else
      var i := FirstIndex(xs[1..], x);
      assert xs[..i + 1] == [xs[0]] + xs[1..][..i];
      i + 1
  }

  /** `xs.remove(x)`: drop the first occurrence. */
  function RemoveFirst(xs: seq<Json>, x: Json): (r: seq<Json>)
    requires x in xs
    ensures |r| == |xs| - 1
    ensures multiset(r) == multiset(xs) - multiset{x}
  {
    var i := FirstIndex(xs, x);
    assert xs == xs[..i] + [x] + xs[i + 1..];
    xs[..i] + xs[i + 1..]
  }

  /** `if 'PSScene4Band' not in xs: xs.append('PSScene4Band')`. */
  function WithFourBand(xs: seq<Json>): (r: seq<Json>)
    ensures JStr("PSScene4Band") in r
    ensures multiset(r)[JStr("PSScene4Band")] == Max(1, multiset(xs)[JStr("PSScene4Band")])
    ensures forall x :: x != JStr("PSScene4Band") ==> multiset(r)[x] == multiset(xs)[x]
  {
    if JStr("PSScene4Band") in xs then xs else xs + [JStr("PSScene4Band")]
  }

  /**
   * The item types for landcover indices: the first PSScene3Band is removed
   * and, if PSScene4Band is not listed yet, it is appended. A string or
   * dict with PSScene3Band in it has no `remove` (AttributeError); other
   * values support no `in` (TypeError).
   */
  function SwappedItemTypes(items: Json): (r: Result<Json>)
    ensures items.JList? && JStr("PSScene3Band") in items.items ==> r.Ok? && r.value.JList?
    ensures items.JList? && JStr("PSScene3Band") !in items.items ==> r == Ok(items)
    ensures items.JStr? ==> r == if Contains(items.s, "PSScene3Band") then Err(AttributeError) else Ok(items)
    ensures items.JObj? ==> r == if "PSScene3Band" in items.fields then Err(AttributeError) else Ok(items)
    ensures !(items.JList? || items.JStr? || items.JObj?) ==> r == Err(TypeError)
  {
    match items
    case JList(xs) =>
      if JStr("PSScene3Band") in xs then Ok(JList(WithFourBand(RemoveFirst(xs, JStr("PSScene3Band")))))
      else Ok(items)
    case JStr(s) => if Contains(s, "PSScene3Band") then Err(AttributeError) else Ok(items)
    case JObj(m) => if "PSScene3Band" in m then Err(AttributeError) else Ok(items)
    case _ => Err(TypeError)
  }

  /** PSScene3Band gives way to PSScene4Band: one PSScene3Band less, a
      PSScene4Band present but not added twice, nothing else touched. */
  lemma SwappedItemTypesCounts(xs: seq<Json>)
    requires JStr("PSScene3Band") in xs
    ensures
      var r := SwappedItemTypes(JList(xs)).value.items;
      JStr("PSScene4Band") in r &&
      multiset(r)[JStr("PSScene4Band")] == Max(1, multiset(xs)[JStr("PSScene4Band")]) &&
      multiset(r)[JStr("PSScene3Band")] == multiset(xs)[JStr("PSScene3Band")] - 1 &&
      forall x :: x != JStr("PSScene3Band") && x != JStr("PSScene4Band") ==> multiset(r)[x] == multiset(xs)[x]
  {
    var removed := RemoveFirst(xs, JStr("PSScene3Band"));
    assert multiset(removed)[JStr("PSScene4Band")] == multiset(xs)[JStr("PSScene4Band")];
  }

  /**
   * The specs after `_validate_landcover_specs`, and whether it raised.
   * With landcover indices requested, the asset type becomes analytic
   * (before the item types are looked at, so it stays changed when they
   * fail) and the item types are swapped; otherwise nothing changes.
   */
  function ValidatedSpecs(specs: map<string, Json>): (r: (map<string, Json>, Result<()>))
    ensures "landcover_indices" !in specs ==> r == (specs, Err(KeyError))
    ensures "landcover_indices" in specs && !Truthy(specs["landcover_indices"]) ==> r == (specs, Ok(()))
    ensures "landcover_indices" in specs && Truthy(specs["landcover_indices"]) && "asset_type" !in specs ==>
      r == (specs, Err(KeyError))
    ensures r.1.Ok? && Truthy(specs["landcover_indices"]) ==>
      "asset_type" in r.0 && r.0["asset_type"] == JStr("analytic") &&
      "item_types" in specs && SwappedItemTypes(specs["item_types"]).Ok? &&
      "item_types" in r.0 && r.0["item_types"] == SwappedItemTypes(specs["item_types"]).value
    ensures r.1.Err? ==> r.1.error in {KeyError, AttributeError, TypeError}
    ensures r.0.Keys == specs.Keys
    ensures forall k :: k in specs && k != "asset_type" && k != "item_types" ==> r.0[k] == specs[k]
  {
    if "landcover_indices" !in specs then (specs, Err(KeyError))
    else if !Truthy(specs["landcover_indices"]) then (specs, Ok(()))
    else if "asset_type" !in specs then (specs, Err(KeyError))
    else
      var analytic := specs["asset_type" := JStr("analytic")];
      if "item_types" !in specs then (analytic, Err(KeyError))
      else
        var swapped := SwappedItemTypes(specs["item_types"]);
        if swapped.Err? then (analytic, Err(swapped.error))
        else (analytic["item_types" := swapped.value], Ok(()))
  }

  // ----- The grabber ----------------------------------------------------------

  /**
   * The Planet grabber. It extends `ImageGrabber`; the inherited specs and
   * template methods are those of `base`.
   */
  class PlanetGrabber {
    const base: ImageGrabber

    constructor(base: ImageGrabber)
      ensures this.base == base
    {
      this.base := base;
    }

    // _filter_by_overlap

    /** The groups whose overlap with the box meets min_intersect; fails as
        `_well_overlapped` does once there is a group to test. `overlap`
        stands for the fractional area `_get_overlap` computes. */
    function OverlapFiltered(groups: Groups, overlap: Scene -> real): (r: Result<Groups>)
      reads base
      ensures r.Err? <==> groups != map[] && base.WellOverlapped(0.0).Err?
      ensures r.Err? ==> r.error == base.WellOverlapped(0.0).error
      ensures r.Ok? ==> forall k :: k in r.value <==> k in groups && base.WellOverlapped(overlap(groups[k])) == Ok(true)
      ensures r.Ok? ==> forall k :: k in r.value ==> r.value[k] == groups[k]
    {
      if groups != map[] && base.WellOverlapped(0.0).Err? then Err(base.WellOverlapped(0.0).error)
      else Ok(map k | k in groups && base.WellOverlapped(overlap(groups[k])) == Ok(true) :: groups[k])
    }

    /** A group is kept exactly when its overlap reaches min_intersect. */
    lemma OverlapFilteredThreshold(groups: Groups, overlap: Scene -> real)
      requires "min_intersect" in base.specs && AsReal(base.specs["min_intersect"]).Some?
      ensures OverlapFiltered(groups, overlap).Ok?
      ensures forall k :: k in groups ==>
        (k in OverlapFiltered(groups, overlap).value <==> overlap(groups[k]) >= AsReal(base.specs["min_intersect"]).value)
    {
      forall k | k in groups
        ensures k in OverlapFiltered(groups, overlap).value <==> overlap(groups[k]) >= AsReal(base.specs["min_intersect"]).value
      {
        base.WellOverlappedThreshold(overlap(groups[k]));
      }
    }

    /** `_filter_by_overlap` with the records passed as lists. */
    method FilterByOverlap(groups: Groups, overlap: Scene -> real) returns (r: Result<Groups>)
      ensures r == OverlapFiltered(groups, overlap)
    {
      var keys := Enumerate(groups.Keys);
      var filtered: Groups := map[];
      for n := 0 to |keys|
        invariant forall k :: k in filtered <==> k in keys[..n] && base.WellOverlapped(overlap(groups[k])) == Ok(true)
        invariant forall k :: k in filtered ==> filtered[k] == groups[k]
        invariant n > 0 ==> base.WellOverlapped(0.0).Ok?
      {
        var k := keys[n];
        var w := base.WellOverlapped(overlap(groups[k]));
        if w.Err? {
          return Err(w.error);
        }
        if w.value {
          filtered := filtered[k := groups[k]];
        }
      }
      assert keys[..|keys|] == keys;
      var fn := OverlapFiltered(groups, overlap);
      assert fn.Ok? by {
        if groups != map[] {
          var k :| k in groups;
        }
      }
      assert filtered.Keys == fn.value.Keys;
      assert forall k :: k in filtered ==> filtered[k] == fn.value[k];
      assert filtered == fn.value;
      return Ok(filtered);
    }

    /**
     * `_filter_by_overlap` as written: it spreads a group's records into
     * `_get_overlap(bbox, records)` and `_well_overlapped(frac_area, IDs)`,
     * which take one list each. No records is a missing argument, two or
     * more are too many, and a single record dict is iterated by its keys,
     * whose footprint lookup indexes a string: each is a TypeError.
     */
    function OverlapFilteredAsWritten(groups: Groups, overlap: Scene -> real): (r: Result<Groups>)
      reads base
      ensures r.Ok? <==> groups == map[]
      ensures r.Ok? ==> r.value == map[]
      ensures r.Err? ==> r.error == TypeError
    {
      if groups == map[] then Ok(map[])
      else Err(TypeError)
    }

    /** Every day with a record gives a group, and the overlap filter as
        written rejects it, so no scene is ever compiled; passing the lists
        filters them as intended. */
    lemma OverlapAsWrittenWitness(records: seq<Rec>, overlap: Scene -> real)
      requires records != []
      requires "min_intersect" in base.specs && AsReal(base.specs["min_intersect"]).Some?
      ensures Group(records) != map[]
      ensures OverlapFilteredAsWritten(Group(records), overlap) == Err(TypeError)
      ensures OverlapFiltered(Group(records), overlap).Ok?
    {
      assert records[0] in records;
      assert KeyOf(records[0]) in Group(records);
    }

    // _filter_copies

    /**
     * `_filter_copies`: one scene per satellite, the group of the first
     * item type in KnownItemTypes it delivered; satellites come in the
     * iteration order of a set, `sats`.
     */
    method FilterCopies(groups: Groups) returns (scenes: seq<Scene>, ghost sats: seq<string>)
      ensures Distinct(sats) && forall s :: s in sats <==> s in SatIds(groups)
      ensures scenes == Preferreds(groups, sats)
    {
      var ids := Enumerate(SatIds(groups));
      scenes := [];
      for n := 0 to |ids|
        invariant scenes == Preferreds(groups, ids[..n])
      {
        var sat := ids[n];
        assert ids[..n + 1][..n] == ids[..n];
        for t := 0 to |KnownItemTypes|
          invariant scenes == Preferreds(groups, ids[..n])
          invariant PreferredFrom(groups, sat, t) == Preferred(groups, sat)
        {
          if (sat, KnownItemTypes[t]) in groups {
            scenes := scenes + [groups[(sat, KnownItemTypes[t])]];
            break;
          }
        }
      }
      assert ids[..|ids|] == ids;
      sats := ids;
    }

    /** The scenes `_filter_copies` keeps are groups, one per satellite that
        delivered a known item type, and that item type is the preferred one. */
    lemma FilterCopiesPreferred(groups: Groups, sats: seq<string>)
      requires Distinct(sats) && forall s :: s in sats <==> s in SatIds(groups)
      ensures forall s :: s in Preferreds(groups, sats) ==> exists k :: k in groups && groups[k] == s
      ensures forall k :: k in groups && k.1 in KnownItemTypes ==> Preferred(groups, k.0).Some?
    {
      PreferredsAreGroups(groups, sats);
      forall k | k in groups && k.1 in KnownItemTypes
        ensures Preferred(groups, k.0).Some?
      {
        var t :| 0 <= t < |KnownItemTypes| && KnownItemTypes[t] == k.1;
        assert (k.0, KnownItemTypes[t]) == k;
      }
    }
  
    // _group_day

    /** `self.specs.get('skip_days')` is truthy. */
    predicate SkipOn()
      reads base
    {
      "skip_days" in base.specs && Truthy(base.specs["skip_days"])
    }

    /**
     * `_group_day`: the records of the day of `records[first]`, grouped by
     * (satellite id, item type), and the position of the next base record
     * (see NextBase). The iterator stands for the records after `first`.
     */
    method GroupDay(records: seq<Rec>, first: nat) returns (r: Result<(Groups, Option<nat>)>)
      requires first < |records|
      ensures r.Ok? ==> r.value.0 == Group(records[first..RunEnd(records, first)])
      ensures RunEnd(records, first) == |records| ==> r.Ok? && r.value.1 == None
      ensures RunEnd(records, first) < |records| ==>
        NextBaseSpec(records, records[first].day, RunEnd(records, first), if r.Ok? then Ok(r.value.1) else Err(r.error))
    {
      var g, e := DayRun(records, first);
      if e == |records| {
        return Ok((g, None));
      }
      var n := NextBase(records, records[first].day, e);
      if n.Err? {
        assert n == Err(n.error);
        return Err(n.error);
      }
      assert n == Ok(n.value);
      return Ok((g, n.value));
    }

    /** The loop of `_group_day` over the records of the day of
        `records[first]`: it stops at the first record of another day, or
        at the end, with the day's records grouped. */
    method DayRun(records: seq<Rec>, first: nat) returns (g: Groups, e: nat)
      requires first < |records|
      ensures e == RunEnd(records, first) && g == Group(records[first..e])
    {
      var d0 := records[first].day;
      g := map[KeyOf(records[first]) := [records[first]]];
      GroupOne(records, first);
      e := first + 1;
      while e < |records| && records[e].day == d0
        invariant first < e <= |records|
        invariant g == Group(records[first..e])
        invariant RunEndFrom(records, d0, e) == RunEnd(records, first)
      {
        g := AddToDay(records, first, e, g);
        e := e + 1;
      }
    }

    /** One more record of the day joins its (satellite id, item type) group. */
    method AddToDay(records: seq<Rec>, first: nat, i: nat, g: Groups) returns (g': Groups)
      requires first <= i < |records| && g == Group(records[first..i])
      ensures g' == Group(records[first..i + 1])
    {
      var x := records[i];
      GroupSnoc(records[first..i], x);
      SliceSnoc(records, first, i);
      if KeyOf(x) in g {
        g' := g[KeyOf(x) := g[KeyOf(x)] + [x]];
      } else {
        g' := g[KeyOf(x) := [x]];
      }
    }

    /** A day's first record alone makes one group. */
    lemma GroupOne(records: seq<Rec>, first: nat)
      requires first < |records|
      ensures Group(records[first..first + 1]) == map[KeyOf(records[first]) := [records[first]]]
    {
      var x := records[first];
      assert records[first..first + 1] == [x];
      assert [x][..0] == [];
      var empty: Groups := map[];
      assert Group([]) == empty;
      assert Group([x]) == empty[KeyOf(x) := [] + [x]];
      assert [] + [x] == [x];
    }

    /** Adding a record to the grouped records appends it to its key's list. */
    lemma GroupSnoc(rs: seq<Rec>, x: Rec)
      ensures Group(rs + [x]) == Group(rs)[KeyOf(x) := if KeyOf(x) in Group(rs) then Group(rs)[KeyOf(x)] + [x] else [x]]
    {
      assert (rs + [x])[..|rs|] == rs;
      assert [] + [x] == [x];
    }

    /**
     * The tail of `_group_day`, at the first record `records[e]` of another
     * day than `d0`: that record is the next base, unless skip_days is set
     * and it is less than skip_days older, in which case the fast-forward
     * over the records after it decides. A skip_days that is not a number
     * cannot be compared (TypeError).
     */
    method NextBase(records: seq<Rec>, d0: int, e: nat) returns (r: Result<Option<nat>>)
      requires e < |records|
      ensures NextBaseSpec(records, d0, e, r)
    {
      if SkipOn() {
        var skip := AsReal(base.specs["skip_days"]);
        if skip.None? {
          return Err(TypeError);
        }
        if ((d0 - records[e].day) as real) < skip.value {
          var ff := base.Fastforward(records, e + 1, d0, DayOf);
          assert ff.Ok?;
          if ff.value.0.Some? {
            return Ok(Some(ff.value.1 - 1));
          }
          return Ok(None);
        }
      }
      return Ok(Some(e));
    }
  
    /** What NextBase promises. */
    predicate NextBaseSpec(records: seq<Rec>, d0: int, e: nat, r: Result<Option<nat>>)
      reads base
      requires e < |records|
    {
      (r.Ok? && r.value.Some? ==> e <= r.value.value < |records|) &&
      (!SkipOn() ==> r == Ok(Some(e))) &&
      (SkipOn() && !base.SkipDaysSet() ==> r == Err(TypeError)) &&
      (SkipOn() && base.SkipDaysSet() ==> r.Ok?) &&
      (SkipOn() && base.SkipDaysSet() && ((d0 - records[e].day) as real) >= AsReal(base.specs["skip_days"]).value ==>
        r == Ok(Some(e))) &&
      (r.Ok? && r.value != Some(e) ==>
        SkipOn() && base.SkipDaysSet() && ((d0 - records[e].day) as real) < AsReal(base.specs["skip_days"]).value) &&
      (r.Ok? && r.value.Some? && r.value.value != e ==>
        e < r.value.value && base.OldEnough(d0, records[r.value.value].day) &&
        forall k :: e < k < r.value.value ==> !base.OldEnough(d0, records[k].day)) &&
      (r.Ok? && r.value.None? ==> forall k :: e < k < |records| ==> !base.OldEnough(d0, records[k].day))
    }
  
    // _compile_scenes

    /** A compiled scene: a whole (satellite, item type) group of one day of
        the catalog, overlapping the box well enough. */
    predicate Compiled(records: seq<Rec>, s: Scene, overlap: Scene -> real)
      reads base
    {
      IsScene(s) && (forall x :: x in s ==> x in records) && DayGroup(records, s) &&
      base.WellOverlapped(overlap(s)) == Ok(true)
    }

    /** Where `_compile_scenes` goes after the day run at `first`: nowhere
        when the records end with that run, otherwise to the next base
        record NextBase picks. */
    predicate NextDay(records: seq<Rec>, first: nat, next: Option<nat>)
      reads base
      requires first < |records|
    {
      if RunEnd(records, first) == |records| then next == None
      else NextBaseSpec(records, records[first].day, RunEnd(records, first), Ok(next))
    }

    /** `pick` is what `_compile_scenes` keeps of the day run at `day`: its
        well-overlapped groups, cut to one per satellite. */
    ghost predicate VisitedDay(records: seq<Rec>, overlap: Scene -> real, day: nat, pick: seq<Scene>)
      reads base
    {
      day < |records| && OverlapFiltered(DayGroups(records, day), overlap).Ok? &&
      CopiesFiltered(OverlapFiltered(DayGroups(records, day), overlap).value, pick)
    }

    /** The day runs `_compile_scenes` visits, `days`, and the scenes it
        keeps from each, `picks`: the first visited day starts at the first
        record, and each later one is the next day of the one before. */
    ghost predicate Visits(records: seq<Rec>, overlap: Scene -> real, days: seq<nat>, picks: seq<seq<Scene>>)
      reads base
      decreases |days|
    {
      |days| == |picks| &&
      (days != [] ==>
         var last := days[|days| - 1];
         VisitedDay(records, overlap, last, picks[|picks| - 1]) &&
         (|days| == 1 ==> last == 0) &&
         (|days| > 1 ==> days[|days| - 2] < |records| && NextDay(records, days[|days| - 2], Some(last))) &&
         Visits(records, overlap, days[..|days| - 1], picks[..|picks| - 1]))
    }

    /** `scenes` are what the visited days gather, cut at N_images: a
        prefix of it, all of it unless N_images scenes are reached, and no
        day visited once N_images scenes were gathered before it; unless
        N_images is reached, the walk went on until no next day was left. */
    ghost predicate Gathers(records: seq<Rec>, overlap: Scene -> real, nImages: real, scenes: seq<Scene>,
                            days: seq<nat>, picks: seq<seq<Scene>>)
      reads base
    {
      Visits(records, overlap, days, picks) &&
      scenes <= Gathered(picks, SkipOn()) &&
      (days != [] ==> (|Gathered(picks[..|picks| - 1], SkipOn())| as real) < nImages) &&
      ((|scenes| as real) < nImages ==> scenes == Gathered(picks, SkipOn()) && WalkEnds(records, days))
    }

    /** The last visited day has no next day. */
    ghost predicate WalkEnds(records: seq<Rec>, days: seq<nat>)
      reads base
    {
      days != [] && days[|days| - 1] < |records| && NextDay(records, days[|days| - 1], None)
    }

    lemma VisitsSnoc(records: seq<Rec>, overlap: Scene -> real, days: seq<nat>, picks: seq<seq<Scene>>,
                     first: nat, grouped: seq<Scene>)
      requires Visits(records, overlap, days, picks) && first < |records|
      requires days == [] ==> first == 0
      requires days != [] ==> days[|days| - 1] < |records| && NextDay(records, days[|days| - 1], Some(first))
      requires VisitedDay(records, overlap, first, grouped)
      ensures Visits(records, overlap, days + [first], picks + [grouped])
    {
      assert (days + [first])[..|days|] == days && (picks + [grouped])[..|picks|] == picks;
    }

    /** What one day of `_compile_scenes` finds at the day run at `first`:
        its kept scenes `grouped` (see VisitedDay), each a compiled scene
        of that day, and its next day `next`, past the run. */
    ghost predicate DayFound(records: seq<Rec>, overlap: Scene -> real, first: nat, grouped: seq<Scene>, next: Option<nat>)
      reads base
    {
      first < |records| && VisitedDay(records, overlap, first, grouped) && NextDay(records, first, next) &&
      (next.Some? ==> RunEnd(records, first) <= next.value < |records|) &&
      forall s: Scene :: s in grouped ==> Compiled(records, s, overlap) && s[0].day == records[first].day
    }

    /** The specs every day of `_compile_scenes` reads can be read:
        min_intersect is a number, and so is skip_days when it is truthy. */
    predicate Readable()
      reads base
    {
      base.WellOverlapped(0.0).Ok? && (SkipOn() ==> base.SkipDaysSet())
    }

    /** The day run at `first` fails: a truthy skip_days that is not a
        number is compared once a record of another day follows the run
        (`_group_day`), and the overlap test reads min_intersect for the
        day's first group (`_filter_by_overlap`). */
    predicate DayFails(records: seq<Rec>, first: nat)
      reads base
      requires first < |records|
    {
      base.WellOverlapped(0.0).Err? || (SkipOn() && !base.SkipDaysSet() && RunEnd(records, first) < |records|)
    }

    /** The exception of a failing day: the skip_days comparison comes
        first; then a missing min_intersect is a KeyError and one that is
        not a number a TypeError. */
    function DayError(records: seq<Rec>, first: nat): Error
      reads base
      requires first < |records|
    {
      if SkipOn() && !base.SkipDaysSet() && RunEnd(records, first) < |records| then TypeError
      else if "min_intersect" !in base.specs then KeyError
      else TypeError
    }

    /** One day of `_compile_scenes`: the day's groups, kept when they
        overlap the box well and cut to one per satellite, and where the
        next day starts. */
    method DayScenes(records: seq<Rec>, first: nat, overlap: Scene -> real) returns (r: Result<(seq<Scene>, Option<nat>)>)
      requires first < |records|
      ensures r.Err? <==> DayFails(records, first)
      ensures r.Err? ==> r.error == DayError(records, first)
      ensures r.Ok? ==> DayFound(records, overlap, first, r.value.0, r.value.1)
    {
      var day := GroupDay(records, first);
      GroupDayOutcome(records, first, day);
      if day.Err? {
        return Err(day.error);
      }
      var kept := FilterByOverlap(day.value.0, overlap);
      FilterOutcome(records, first, overlap);
      if kept.Err? {
        return Err(kept.error);
      }
      var filtered := kept.value;
      var grouped, sats := FilterCopies(filtered);
      KeptScenesAreCompiled(records, first, filtered, overlap, sats);
      assert CopiesFiltered(filtered, grouped);
      r := Ok((grouped, day.value.1));
    }

    /** `_group_day` fails exactly on a truthy skip_days that is not a
        number, once a record of another day follows the run. */
    lemma GroupDayOutcome(records: seq<Rec>, first: nat, g: Result<(Groups, Option<nat>)>)
      requires first < |records|
      requires RunEnd(records, first) == |records| ==> g.Ok?
      requires RunEnd(records, first) < |records| ==>
        NextBaseSpec(records, records[first].day, RunEnd(records, first), if g.Ok? then Ok(g.value.1) else Err(g.error))
      ensures g.Err? <==> SkipOn() && !base.SkipDaysSet() && RunEnd(records, first) < |records|
      ensures g.Err? ==> g.error == TypeError
    {
    }

    /** The overlap filter of a day fails exactly as `_well_overlapped` does:
        a day run always holds a group. */
    lemma FilterOutcome(records: seq<Rec>, first: nat, overlap: Scene -> real)
      requires first < |records|
      ensures OverlapFiltered(DayGroups(records, first), overlap).Err? <==> base.WellOverlapped(0.0).Err?
      ensures OverlapFiltered(DayGroups(records, first), overlap).Err? ==>
        OverlapFiltered(DayGroups(records, first), overlap).error == (if "min_intersect" !in base.specs then KeyError else TypeError)
    {
      assert records[first] in records[first..RunEnd(records, first)];
      assert KeyOf(records[first]) in DayGroups(records, first);
    }

    /** The scenes kept from one day's groups are compiled scenes of that day. */
    lemma KeptScenesAreCompiled(records: seq<Rec>, first: nat, filtered: Groups, overlap: Scene -> real, sats: seq<string>)
      requires first < |records|
      requires OverlapFiltered(DayGroups(records, first), overlap) == Ok(filtered)
      ensures forall s: Scene :: s in Preferreds(filtered, sats) ==> Compiled(records, s, overlap) && s[0].day == records[first].day
    {
      PreferredsAreGroups(filtered, sats);
      forall s: Scene | s in Preferreds(filtered, sats)
        ensures Compiled(records, s, overlap) && s[0].day == records[first].day
      {
        var k :| k in filtered && filtered[k] == s;
        KeptSceneIsCompiled(records, first, filtered, overlap, k);
      }
    }

    lemma KeptSceneIsCompiled(records: seq<Rec>, first: nat, filtered: Groups, overlap: Scene -> real, k: Key)
      requires first < |records|
      requires OverlapFiltered(DayGroups(records, first), overlap) == Ok(filtered)
      requires k in filtered
      ensures Compiled(records, filtered[k], overlap) && filtered[k][0].day == records[first].day
    {
      var s := filtered[k];
      var e := RunEnd(records, first);
      var run := records[first..e];
      var groups := DayGroups(records, first);
      assert groups == Group(run);
      assert k in groups && groups[k] == s;
      assert s == WithKey(run, k);
      RunOfDay(records, first);
      GroupOfDay(run, records[first].day);
      SliceMembers(records, first, e);
      assert forall x :: x in s ==> x in run;
      assert DayGroup(records, s) by {
        assert 0 <= first < |records| && k in DayGroups(records, first) && s == DayGroups(records, first)[k];
      }
    }

    /**
     * The loop over one day's scenes in `_compile_scenes`: each is appended,
     * stopping after the first with skip_days set, or once there are
     * `nImages` scenes.
     */
    method TakeScenes(scenes: seq<Scene>, grouped: seq<Scene>, nImages: real) returns (r: seq<Scene>)
      requires (|scenes| as real) < nImages
      ensures DayTaken(scenes, grouped, r, nImages, SkipOn())
    {
      r := scenes;
      for j := 0 to |grouped|
        invariant (|r| as real) < nImages
        invariant r == scenes + grouped[..j]
        invariant SkipOn() ==> j == 0
      {
        r := r + [grouped[j]];
        assert r == scenes + grouped[..j + 1];
        if SkipOn() || (|r| as real) >= nImages {
          break;
        }
      }
      assert r == scenes + grouped[..|r| - |scenes|];
    }

    /** With skip_days set, a day adds at most its first scene, of that day,
        and the next base record is older still. */
    lemma SkipStep(records: seq<Rec>, first: nat, before: seq<Scene>, grouped: seq<Scene>, after: seq<Scene>, next: Option<nat>)
      requires NewestFirst(records) && first < |records|
      requires Decreasing(before) && forall s: Scene :: s in before ==> |s| > 0 && s[0].day > records[first].day
      requires forall s: Scene :: s in grouped ==> |s| > 0 && s[0].day == records[first].day
      requires |before| <= |after| <= |before| + 1 && after[..|before|] == before
      requires |after| > |before| ==> |grouped| > 0 && after[|before|] == grouped[0]
      requires next.Some? ==> RunEnd(records, first) <= next.value < |records|
      ensures Decreasing(after)
      ensures next.Some? ==> forall s: Scene :: s in after ==> |s| > 0 && s[0].day > records[next.value].day
    {
      if next.Some? {
        NewestFirstPast(records, first, next.value);
      }
      if |after| > |before| {
        assert grouped[0] in grouped;
        forall i, j | 0 <= i < j < |after|
          ensures |after[i]| > 0 && |after[j]| > 0 && after[i][0].day > after[j][0].day
        {
          assert after[i] == before[i];
          if j < |before| {
            assert after[j] == before[j];
          } else {
            assert before[i] in before;
          }
        }
        forall s: Scene | s in after
          ensures |s| > 0 && s[0].day >= records[first].day
        {
          var i :| 0 <= i < |after| && after[i] == s;
          if i < |before| {
            assert after[i] == before[i] && before[i] in before;
          }
        }
      } else {
        assert after == before;
      }
    }

    /** The scenes of the `_compile_scenes` loop before the day at `next`
        (None once there is none): compiled scenes, spaced one per older day
        with skip_days set, and no more than N_images of them. */
    predicate Collected(records: seq<Rec>, overlap: Scene -> real, nImages: real, scenes: seq<Scene>, next: Option<nat>)
      reads base
    {
      (next.Some? ==> next.value < |records|) &&
      (scenes == [] || ((|scenes| - 1) as real) < nImages) &&
      (forall s :: s in scenes ==> Compiled(records, s, overlap)) &&
      (SkipOn() && NewestFirst(records) ==>
         Decreasing(scenes) && (next.Some? ==> forall s: Scene :: s in scenes ==> |s| > 0 && s[0].day > records[next.value].day))
    }

    /** The walk of the `_compile_scenes` loop before the day at `next`: the
        days visited so far and their kept scenes, the next day after the
        last of them, and the scenes so far all that those days gather
        unless N_images is reached. */
    ghost predicate Walked(records: seq<Rec>, overlap: Scene -> real, nImages: real, scenes: seq<Scene>,
                           next: Option<nat>, days: seq<nat>, picks: seq<seq<Scene>>)
      reads base
    {
      Visits(records, overlap, days, picks) &&
      (days == [] ==> next == Some(0) && scenes == []) &&
      (days != [] ==> days[|days| - 1] < |records| && NextDay(records, days[|days| - 1], next)) &&
      scenes <= Gathered(picks, SkipOn()) &&
      (scenes == Gathered(picks, SkipOn()) || (|scenes| as real) >= nImages) &&
      (days != [] ==> (|Gathered(picks[..|picks| - 1], SkipOn())| as real) < nImages)
    }

    /** The state of the `_compile_scenes` loop before the day at `next`. */
    ghost predicate Looped(records: seq<Rec>, overlap: Scene -> real, nImages: real, scenes: seq<Scene>,
                           next: Option<nat>, days: seq<nat>, picks: seq<seq<Scene>>)
      reads base
    {
      Collected(records, overlap, nImages, scenes, next) && Walked(records, overlap, nImages, scenes, next, days, picks)
    }

    /** One pass of the `_compile_scenes` loop: the day at `first` is
        visited and its scenes taken, and the loop moves on to the next day. */
    method CompileDay(records: seq<Rec>, overlap: Scene -> real, nImages: real, scenes: seq<Scene>, first: nat,
                      ghost days: seq<nat>, ghost picks: seq<seq<Scene>>)
      returns (r: Result<(seq<Scene>, Option<nat>)>, ghost days': seq<nat>, ghost picks': seq<seq<Scene>>)
      requires Collected(records, overlap, nImages, scenes, Some(first)) && (|scenes| as real) < nImages
      requires Walked(records, overlap, nImages, scenes, Some(first), days, picks)
      ensures r.Err? <==> DayFails(records, first)
      ensures r.Err? ==> r.error == DayError(records, first)
      ensures r.Ok? ==> Collected(records, overlap, nImages, r.value.0, r.value.1)
      ensures r.Ok? ==> Walked(records, overlap, nImages, r.value.0, r.value.1, days', picks')
      ensures r.Ok? ==> days' == days + [first]
      ensures r.Ok? && r.value.1.Some? ==> first < r.value.1.value && Readable()
    {
      days', picks' := days, picks;
      var day := DayScenes(records, first, overlap);
      if day.Err? {
        return Err(day.error), days', picks';
      }
      var grouped := day.value.0;
      var next := day.value.1;
      var taken := TakeDay(records, overlap, nImages, scenes, first, days, picks, grouped, next);
      days', picks' := days + [first], picks + [grouped];
      r := Ok((taken, next));
    }

    /** The found day's scenes taken after those so far: the loop state is
        kept, and a next day can be read. */
    method TakeDay(records: seq<Rec>, overlap: Scene -> real, nImages: real, scenes: seq<Scene>, first: nat,
                   ghost days: seq<nat>, ghost picks: seq<seq<Scene>>, grouped: seq<Scene>, next: Option<nat>)
      returns (taken: seq<Scene>)
      requires Collected(records, overlap, nImages, scenes, Some(first)) && (|scenes| as real) < nImages
      requires Walked(records, overlap, nImages, scenes, Some(first), days, picks)
      requires DayFound(records, overlap, first, grouped, next) && !DayFails(records, first)
      ensures Collected(records, overlap, nImages, taken, next)
      ensures Walked(records, overlap, nImages, taken, next, days + [first], picks + [grouped])
      ensures next.Some? ==> first < next.value && Readable()
    {
      ReadableAfter(records, first, next);
      taken := TakeScenes(scenes, grouped, nImages);
      DayStep(records, overlap, nImages, scenes, first, days, picks, grouped, next, taken);
    }

    /** A day run that did not fail and is followed by a next day leaves
        specs every later day can read. */
    lemma ReadableAfter(records: seq<Rec>, first: nat, next: Option<nat>)
      requires first < |records| && !DayFails(records, first)
      requires next.Some? ==> RunEnd(records, first) <= next.value < |records|
      ensures next.Some? ==> Readable()
    {
    }

    /** A day of the loop, found and taken, keeps its state. */
    lemma DayStep(records: seq<Rec>, overlap: Scene -> real, nImages: real, scenes: seq<Scene>, first: nat,
                  days: seq<nat>, picks: seq<seq<Scene>>, grouped: seq<Scene>, next: Option<nat>, taken: seq<Scene>)
      requires Collected(records, overlap, nImages, scenes, Some(first)) && (|scenes| as real) < nImages
      requires Walked(records, overlap, nImages, scenes, Some(first), days, picks)
      requires DayFound(records, overlap, first, grouped, next)
      requires DayTaken(scenes, grouped, taken, nImages, SkipOn())
      ensures Collected(records, overlap, nImages, taken, next)
      ensures Walked(records, overlap, nImages, taken, next, days + [first], picks + [grouped])
      ensures next.Some? ==> first < next.value
    {
      CollectStep(records, overlap, nImages, scenes, first, grouped, next, taken);
      WalkStep(records, overlap, nImages, scenes, first, days, picks, grouped, next, taken);
    }

    /** The scenes of a day, taken after those so far, keep them collected. */
    lemma CollectStep(records: seq<Rec>, overlap: Scene -> real, nImages: real, scenes: seq<Scene>, first: nat,
                      grouped: seq<Scene>, next: Option<nat>, taken: seq<Scene>)
      requires Collected(records, overlap, nImages, scenes, Some(first))
      requires forall s: Scene :: s in grouped ==> Compiled(records, s, overlap) && s[0].day == records[first].day
      requires next.Some? ==> RunEnd(records, first) <= next.value < |records|
      requires taken == [] || ((|taken| - 1) as real) < nImages
      requires scenes <= taken <= scenes + DayTake(grouped, SkipOn())
      ensures Collected(records, overlap, nImages, taken, next)
    {
      TakenFrom(scenes, grouped, taken, SkipOn());
      if SkipOn() && NewestFirst(records) {
        SkipStep(records, first, scenes, grouped, taken, next);
      }
    }

    /** Visiting the day at `first` extends the walk by that day. */
    lemma WalkStep(records: seq<Rec>, overlap: Scene -> real, nImages: real, scenes: seq<Scene>, first: nat,
                   days: seq<nat>, picks: seq<seq<Scene>>, grouped: seq<Scene>, next: Option<nat>, taken: seq<Scene>)
      requires first < |records|
      requires Walked(records, overlap, nImages, scenes, Some(first), days, picks) && (|scenes| as real) < nImages
      requires VisitedDay(records, overlap, first, grouped)
      requires NextDay(records, first, next)
      requires scenes <= taken <= scenes + DayTake(grouped, SkipOn())
      requires taken == scenes + DayTake(grouped, SkipOn()) || (|taken| as real) >= nImages
      ensures Walked(records, overlap, nImages, taken, next, days + [first], picks + [grouped])
    {
      VisitsSnoc(records, overlap, days, picks, first, grouped);
      GatheredSnoc(picks, grouped, SkipOn());
      assert (picks + [grouped])[..|picks|] == picks;
      assert (days + [first])[|days|] == first;
    }

    /** Where the loop stops, the walk has ended or N_images is reached. */
    lemma WalkStopped(records: seq<Rec>, overlap: Scene -> real, nImages: real, scenes: seq<Scene>,
                      next: Option<nat>, days: seq<nat>, picks: seq<seq<Scene>>)
      requires Walked(records, overlap, nImages, scenes, next, days, picks)
      requires next.None? || (|scenes| as real) >= nImages
      ensures Gathers(records, overlap, nImages, scenes, days, picks)
    {
    }

    /** The loop of `_compile_scenes`, for a numeric N_images. */
    method CollectScenes(records: seq<Rec>, overlap: Scene -> real, nImages: real)
      returns (r: Result<seq<Scene>>, ghost days: seq<nat>, ghost picks: seq<seq<Scene>>)
      requires records != []
      ensures r.Ok? ==> r.value == [] || ((|r.value| - 1) as real) < nImages
      ensures r.Ok? ==> forall s :: s in r.value ==> Compiled(records, s, overlap)
      ensures r.Ok? && SkipOn() && NewestFirst(records) ==> Decreasing(r.value)
      ensures r.Ok? ==> Gathers(records, overlap, nImages, r.value, days, picks)
      ensures r.Err? <==> 0.0 < nImages && DayFails(records, 0)
      ensures r.Err? ==> r.error == DayError(records, 0)
    {
      days, picks := [], [];
      var scenes: seq<Scene> := [];
      var next: Option<nat> := Some(0);
      while next.Some? && (|scenes| as real) < nImages
        invariant Collected(records, overlap, nImages, scenes, next)
        invariant Walked(records, overlap, nImages, scenes, next, days, picks)
        invariant days == [] ==> next == Some(0) && scenes == []
        invariant days != [] ==> !DayFails(records, 0)
        invariant days != [] && next.Some? ==> Readable()
        decreases if next.Some? then |records| + 1 - next.value else 0
      {
        var day;
        day, days, picks := CompileDay(records, overlap, nImages, scenes, next.value, days, picks);
        if day.Err? {
          return Err(day.error), days, picks;
        }
        scenes, next := day.value.0, day.value.1;
      }
      WalkStopped(records, overlap, nImages, scenes, next, days, picks);
      return Ok(scenes), days, picks;
    }

    /**
     * `_compile_scenes`: day by day, the groups that overlap the box and
     * survive the copy filter become scenes, until N_images of them are
     * collected; with skip_days set, only the first scene of a day is taken.
     * `records` is the catalog iterator, `overlap` the fractional overlap
     * of a group with the box.
     */
    method CompileScenes(records: seq<Rec>, overlap: Scene -> real)
      returns (r: Result<seq<Scene>>, ghost days: seq<nat>, ghost picks: seq<seq<Scene>>)
      ensures records == [] ==> r == Ok([])
      ensures records != [] && "N_images" !in base.specs ==> r == Err(KeyError)
      ensures records != [] && "N_images" in base.specs && AsReal(base.specs["N_images"]).None? ==> r == Err(TypeError)
      ensures r.Ok? && r.value != [] ==>
        "N_images" in base.specs && AsReal(base.specs["N_images"]).Some? &&
        ((|r.value| - 1) as real) < AsReal(base.specs["N_images"]).value
      ensures r.Ok? && "N_images" in base.specs && base.specs["N_images"].JInt? ==> |r.value| <= Max(0, base.specs["N_images"].i)
      ensures r.Ok? ==> forall s :: s in r.value ==> Compiled(records, s, overlap)
      ensures r.Ok? && SkipOn() && NewestFirst(records) ==> Decreasing(r.value)
      ensures r.Ok? && records != [] ==>
        "N_images" in base.specs && AsReal(base.specs["N_images"]).Some? &&
        Gathers(records, overlap, AsReal(base.specs["N_images"]).value, r.value, days, picks)
      ensures records != [] && "N_images" in base.specs && AsReal(base.specs["N_images"]).Some? ==>
        (r.Err? <==> 0.0 < AsReal(base.specs["N_images"]).value && DayFails(records, 0)) &&
        (r.Err? ==> r.error == DayError(records, 0))
    {
      days, picks := [], [];
      if records == [] {
        return Ok([]), days, picks;
      }
      if "N_images" !in base.specs {
        return Err(KeyError), days, picks;
      }
      var nImages := AsReal(base.specs["N_images"]);
      if nImages.None? {
        return Err(TypeError), days, picks;
      }
      r, days, picks := CollectScenes(records, overlap, nImages.value);
      if r.Ok? && base.specs["N_images"].JInt? {
        CountBelow(|r.value|, base.specs["N_images"].i, nImages.value);
      }
    }
  
    // _validate_landcover_specs

    /** `_validate_landcover_specs`, run by `__init__`: see ValidatedSpecs. */
    method ValidateLandcoverSpecs() returns (r: Result<()>)
      modifies base
      ensures (base.specs, r) == ValidatedSpecs(old(base.specs))
    {
      ghost var given := base.specs;
      if "landcover_indices" !in base.specs {
        return Err(KeyError);
      }
      if !Truthy(base.specs["landcover_indices"]) {
        return Ok(());
      }
      if "asset_type" !in base.specs {
        return Err(KeyError);
      }
      if base.specs["asset_type"] != JStr("analytic") {
        base.specs := base.specs["asset_type" := JStr("analytic")];
      }
      assert base.specs == given["asset_type" := JStr("analytic")];
      if "item_types" !in base.specs {
        return Err(KeyError);
      }
      var items := base.specs["item_types"];
      assert items == given["item_types"];
      if !(items.JList? || items.JStr? || items.JObj?) {
        return Err(TypeError);
      }
      var present := if items.JList? then JStr("PSScene3Band") in items.items
        else if items.JStr? then Contains(items.s, "PSScene3Band")
        else "PSScene3Band" in items.fields;
      if !present {
        assert SwappedItemTypes(items) == Ok(items);
        assert base.specs == base.specs["item_types" := items];
        return Ok(());
      }
      if !items.JList? {
        return Err(AttributeError);
      }
      var xs := RemoveFirst(items.items, JStr("PSScene3Band"));
      if JStr("PSScene4Band") !in xs {
        xs := xs + [JStr("PSScene4Band")];
      }
      assert JList(xs) == SwappedItemTypes(items).value;
      base.specs := base.specs["item_types" := JList(xs)];
      return Ok(());
    }

    // _reorder, _reproject

    /** `_reorder`: after the download, put the paths in the order of their
        records. */
    method Reorder(paths: seq<string>, records: seq<Rec>) returns (r: Result<seq<Option<string>>>)
      ensures r == ReorderOf(paths, records)
    {
      var ordered: seq<Option<string>> := seq(|paths|, _ => None);
      for n := 0 to |records|
        invariant |ordered| == |paths|
        invariant forall m :: 0 <= m < |paths| ==> ordered[m] == if m < n then LastContaining(paths, records[m].id) else None
        invariant forall m :: |paths| <= m < n ==> LastContaining(paths, records[m].id).None?
      {
        var id := records[n].id;
        for q := 0 to |paths|
          invariant |ordered| == |paths|
          invariant forall m :: 0 <= m < |paths| && m != n ==> ordered[m] == if m < n then LastContaining(paths, records[m].id) else None
          invariant n < |paths| ==> ordered[n] == LastContaining(paths[..q], id)
          invariant n >= |paths| ==> LastContaining(paths[..q], id).None?
        {
          assert paths[..q + 1][..q] == paths[..q];
          if Contains(paths[q], id) {
            if n >= |ordered| {
              assert paths[q] in paths;
              return Err(IndexError);
            }
            ordered := ordered[n := Some(paths[q])];
          }
        }
        assert paths[..|paths|] == paths;
      }
      var fn := ReorderOf(paths, records);
      assert fn.Ok?;
      assert forall m :: 0 <= m < |paths| ==> ordered[m] == fn.value[m];
      assert ordered == fn.value;
      return Ok(ordered);
    }

    /** `_reproject`: the paths, paired with their records, with every image
        whose record carries an EPSG code other than the target reprojected
        to it. `reproject` stands for gdal_routines.reproject. */
    method Reproject(paths: seq<string>, records: seq<Rec>, target: Json, reproject: (string, Json) -> string)
      returns (r: seq<string>)
      ensures |r| == Min(|paths|, |records|)
      ensures forall k :: 0 <= k < |r| ==>
        if Truthy(records[k].epsg) && records[k].epsg != target then r[k] == reproject(paths[k], target) else r[k] == paths[k]
      ensures (forall k :: 0 <= k < |r| ==> !Truthy(records[k].epsg) || records[k].epsg == target) ==> r == paths[..|r|]
    {
      r := [];
      for k := 0 to Min(|paths|, |records|)
        invariant |r| == k
        invariant forall j :: 0 <= j < k ==>
          if Truthy(records[j].epsg) && records[j].epsg != target then r[j] == reproject(paths[j], target) else r[j] == paths[j]
      {
        var path := paths[k];
        var source := records[k].epsg;
        if Truthy(source) && source != target {
          path := reproject(path, target);
        }
        r := r + [path];
      }
    }
  }
}
