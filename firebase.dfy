/**
 * Story records kept in a Firebase database: how an item's index is made
 * from its title or url, and how one data field is gathered from every
 * story with a fallback to an empty value.
 */
module Firebase {
  import opened Wrappers
  import opened Json
  import opened Py

  /** Characters Firebase forbids in a key: . $ % [ ] # / ? and newline. */
  const ForbiddenChars: set<char> := {'.', '$', '%', '[', ']', '#', '/', '?', '\n'}

  /** The default longest index. */
  const MaxIdxLen: nat := 96

  /** Firebase drops keys whose value is empty, so each data field has an
      empty stand-in. */
  const EmptyDataValues: map<string, Json> := map[
    "description" := JStr(""),
    "image" := JStr(""),
    "image_tags" := JObj(map[]),
    "keywords" := JObj(map[]),
    "locations" := JObj(map[]),
    "outlet" := JStr(""),
    "probability" := JNum(0.0),
    "publication_date" := JStr(""),
    "text" := JStr(""),
    "title" := JStr(""),
    "url" := JStr("")
  ]

  // ----- Index sanitising -------------------------------------------------

  /** `re.sub(FB_FORBIDDEN_CHARS, '', s)`: every forbidden character removed. */
  function RemoveForbidden(s: string): (r: string)
    ensures |r| <= |s|
    ensures forall k :: 0 <= k < |r| ==> r[k] !in ForbiddenChars
  {
    if s == [] then []
    else (if s[0] in ForbiddenChars then [] else [s[0]]) + RemoveForbidden(s[1..])
  }

  /** Removal works character by character, so it distributes over `+`. */
  lemma {:induction false} RemoveForbiddenConcat(a: string, b: string)
    ensures RemoveForbidden(a + b) == RemoveForbidden(a) + RemoveForbidden(b)
    decreases |a|
  {
    if a != [] {
      assert (a + b)[1..] == a[1..] + b;
      RemoveForbiddenConcat(a[1..], b);
    } else {
      assert a + b == b;
    }
  }

  /** A string with no forbidden character is left as it is; in particular
      removal is idempotent. */
  lemma {:induction false} RemoveForbiddenClean(s: string)
    requires forall k :: 0 <= k < |s| ==> s[k] !in ForbiddenChars
    ensures RemoveForbidden(s) == s
    decreases |s|
  {
    if s != [] {
      RemoveForbiddenClean(s[1..]);
    }
  }

  /** Every allowed character of the input survives, in the same number. */
  lemma {:induction false} RemoveForbiddenKeepsAllowed(s: string, c: char)
    requires c !in ForbiddenChars
    ensures multiset(RemoveForbidden(s))[c] == multiset(s)[c]
    decreases |s|
  {
    if s != [] {
      RemoveForbiddenKeepsAllowed(s[1..], c);
      assert s == [s[0]] + s[1..];
    }
  }

  /**
   * `make_idx`: the record's title, or its url when it has no title, with
   * the forbidden characters removed, cut to `maxLen` characters. KeyError
   * when the record has neither key; TypeError when the value is not a
   * string (re.sub refuses it).
   */
  function MakeIdx(record: map<string, Json>, maxLen: nat): (r: Result<string>)
    ensures "title" !in record && "url" !in record <==> r == Err(KeyError)
    ensures r.Ok? ==> |r.value| <= maxLen
    ensures r.Ok? ==> forall k :: 0 <= k < |r.value| ==> r.value[k] !in ForbiddenChars
    ensures r.Ok? ==> var src := if "title" in record then record["title"] else record["url"];
      src.JStr? && IsPrefix(r.value, RemoveForbidden(src.s)) && |r.value| == Min(maxLen, |RemoveForbidden(src.s)|)
    ensures r.Err? ==> r.error in {KeyError, TypeError}
  {
    if "title" !in record && "url" !in record then Err(KeyError)
    else
      var src := if "title" in record then record["title"] else record["url"];
      if !src.JStr? then Err(TypeError)
      else Ok(Slice(RemoveForbidden(src.s), 0, maxLen))
  }

  /** An index made once is a fixed point: a record titled with it gets the
      same index again. */
  lemma MakeIdxIdempotent(record: map<string, Json>, maxLen: nat)
    requires MakeIdx(record, maxLen).Ok?
    ensures MakeIdx(map["title" := JStr(MakeIdx(record, maxLen).value)], maxLen) == MakeIdx(record, maxLen)
  {
    var idx := MakeIdx(record, maxLen).value;
    RemoveForbiddenClean(idx);
    assert Slice(idx, 0, maxLen) == idx;
  }

  /** A short title made only of allowed characters is its own index. */
  lemma MakeIdxCleanTitle(title: string, record: map<string, Json>)
    requires "title" in record && record["title"] == JStr(title)
    requires |title| <= MaxIdxLen && forall k :: 0 <= k < |title| ==> title[k] !in ForbiddenChars
    ensures MakeIdx(record, MaxIdxLen) == Ok(title)
  {
    RemoveForbiddenClean(title);
    assert Slice(title, 0, MaxIdxLen) == title;
  }

  // ----- Items --------------------------------------------------------------

  /** A database item: the category it is filed under, its key and its data. */
  datatype DBItem = DBItem(category: string, idx: string, record: Option<map<string, Json>>)

  /** `DBItem.__init__`: ValueError when neither an index nor a record is
      given; a given index is kept; otherwise the index is made from the
      record. */
  function NewDBItem(category: string, idx: Option<string>, record: Option<map<string, Json>>): (r: Result<DBItem>)
    ensures idx.None? && record.None? <==> r == Err(ValueError)
    ensures idx.Some? ==> r == Ok(DBItem(category, idx.value, record))
    ensures idx.None? && record.Some? ==>
      (r.Ok? <==> MakeIdx(record.value, MaxIdxLen).Ok?) &&
      (r.Ok? ==> r.value.idx == MakeIdx(record.value, MaxIdxLen).value && r.value.record == record)
    ensures r.Ok? ==> r.value.category == category
  {
    if idx.None? && record.None? then Err(ValueError)
    else if idx.Some? then Ok(DBItem(category, idx.value, record))
    else
      var made :- MakeIdx(record.value, MaxIdxLen);
      Ok(DBItem(category, made, record))
  }

  // ----- Gathering one field from every story ------------------------------

  /** The datum a story contributes: its own value for `dataType`, else the
      empty stand-in, else KeyError. A story that is not a dict cannot be
      indexed by a string (TypeError). */
  function Datum(v: Json, dataType: string): (r: Result<Json>)
    ensures r.Err? <==> !v.JObj? || (dataType !in v.fields && dataType !in EmptyDataValues)
    ensures r.Ok? && dataType in v.fields ==> r.value == v.fields[dataType]
    ensures r.Ok? && dataType !in v.fields ==> r.value == EmptyDataValues[dataType]
  {
    if !v.JObj? then Err(TypeError)
    else if dataType in v.fields then Ok(v.fields[dataType])
    else if dataType in EmptyDataValues then Ok(EmptyDataValues[dataType])
    else Err(KeyError)
  }

  /** Story `i` is the first that has no datum. */
  predicate FirstFailure(raw: seq<(string, Json)>, dataType: string, i: int) {
    0 <= i < |raw| && Datum(raw[i].1, dataType).Err? &&
    forall j :: 0 <= j < i ==> Datum(raw[j].1, dataType).Ok?
  }

  /**
   * `grab_data` once the stories are fetched: `raw` lists the stories'
   * (key, value) pairs in the dict's order. Returns the keys and one datum
   * per story, or the error of the first story that has none.
   */
  method GrabData(raw: seq<(string, Json)>, dataType: string) returns (r: Result<(seq<string>, seq<Json>)>)
    ensures r.Ok? <==> forall i :: 0 <= i < |raw| ==> Datum(raw[i].1, dataType).Ok?
    ensures r.Ok? ==> |r.value.0| == |raw| && |r.value.1| == |raw|
    ensures r.Ok? ==> forall i :: 0 <= i < |raw| ==>
      r.value.0[i] == raw[i].0 && r.value.1[i] == Datum(raw[i].1, dataType).value
    ensures r.Err? ==> exists i :: FirstFailure(raw, dataType, i) && Datum(raw[i].1, dataType) == Err(r.error)
  {
    var indices := seq(|raw|, i requires 0 <= i < |raw| => raw[i].0);
    var data: seq<Json> := [];
    var n := 0;
    while n < |raw|
      invariant 0 <= n <= |raw| && |data| == n
      invariant forall i :: 0 <= i < n ==> Datum(raw[i].1, dataType).Ok?
      invariant forall i :: 0 <= i < n ==> data[i] == Datum(raw[i].1, dataType).value
    {
      var d := Datum(raw[n].1, dataType);
      if d.Err? {
        return Err(d.error);
      }
      data := data + [d.value];
      n := n + 1;
    }
    r := Ok((indices, data));
  }
}
