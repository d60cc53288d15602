/** JSON-like Python values: what the modelled code keeps in dicts and lists. */
module Json {
  import opened Wrappers
  import opened Py

  datatype Json =
    | JNull
    | JBool(b: bool)
    | JInt(i: int)
    | JNum(r: real)
    | JStr(s: string)
    | JList(items: seq<Json>)
    | JObj(fields: map<string, Json>)

  /** Python truthiness: None, False, zero and empty containers are false. */
  predicate Truthy(j: Json) {
    match j
    case JNull => false
    case JBool(b) => b
    case JInt(i) => i != 0
    case JNum(r) => r != 0.0
    case JStr(s) => s != []
    case JList(xs) => xs != []
    case JObj(m) => m != map[]
  }

  /** The value of a number (bools count as 0 and 1, as in Python). */
  function AsReal(j: Json): (r: Option<real>)
    ensures r.Some? <==> j.JBool? || j.JInt? || j.JNum?
  {
    match j
    case JBool(b) => Some(if b then 1.0 else 0.0)
    case JInt(i) => Some(i as real)
    case JNum(r) => Some(r)
    case _ => None
  }

  /** Strings as lists of strings. */
  function Strs(xs: seq<string>): (r: seq<Json>)
    ensures |r| == |xs| && forall k :: 0 <= k < |xs| ==> r[k] == JStr(xs[k])
    ensures forall m :: m in r ==> m.JStr?
  {
    seq(|xs|, k requires 0 <= k < |xs| => JStr(xs[k]))
  }

  /**
   * `[x.lower() for x in j if x in known]`. A list is iterated by its
   * members, a dict by its keys, a string by its characters; any other value
   * is not iterable (TypeError). Only strings can be among the known names.
   * When `hashed` holds, `known` is a dict or its keys (color.STYLES), and
   * testing a list or dict member for membership hashes it: TypeError. When
   * it does not, `known` is a list (landcover.INDICES): membership compares
   * with `==`, and such a member is skipped.
   */
  function SelectKnown(j: Json, known: set<string>, hashed: bool): (r: Result<seq<string>>)
    ensures j.JList? ==> (r.Err? <==> hashed && exists i :: 0 <= i < |j.items| && Unhashable(j.items[i]))
    ensures j.JList? && r.Ok? ==> r.value == KeepKnownLowered(StringItems(j.items), known)
    ensures j.JObj? ==> r == Ok(KeepKnownLowered(SortedStrings(j.fields.Keys), known))
    ensures j.JStr? ==> r == Ok(KeepKnownLowered(Chars(j.s), known))
    ensures !j.JList? && !j.JObj? && !j.JStr? ==> r == Err(TypeError)
    ensures r.Err? ==> r.error == TypeError
  {
    match j
    case JList(items) => SelectKnownItems(items, known, hashed)
    case JObj(fields) => SelectKnownOf(SortedStrings(fields.Keys), known)
    case JStr(s) => SelectKnownOf(Chars(s), known)
    case _ => Err(TypeError)
  }

  /** The selection over names that are all strings: it cannot fail. */
  function SelectKnownOf(xs: seq<string>, known: set<string>): (r: Result<seq<string>>)
    ensures r == Ok(KeepKnownLowered(xs, known))
  {
    Ok(KeepKnownLowered(xs, known))
  }

  /** Every selected name is the lower-case form of a known name. */
  lemma SelectKnownMembers(j: Json, known: set<string>, hashed: bool)
    requires SelectKnown(j, known, hashed).Ok?
    ensures forall y :: y in SelectKnown(j, known, hashed).value ==> exists x :: x in known && y == Lower(x)
  {
    var xs := match j
      case JList(items) => StringItems(items)
      case JObj(fields) => SortedStrings(fields.Keys)
      case JStr(s) => Chars(s)
      case _ => [];
    forall y | y in SelectKnown(j, known, hashed).value
      ensures exists x :: x in known && y == Lower(x)
    {
      KeepKnownLoweredMembers(xs, known, y);
    }
  }

  /** Iterating a string gives its one-character strings. */
  function Chars(s: string): (r: seq<string>)
    ensures |r| == |s| && forall k :: 0 <= k < |s| ==> r[k] == [s[k]]
  {
    seq(|s|, k requires 0 <= k < |s| => [s[k]])
  }

  /** `iter(j)`: a list's members, a dict's keys (in the order SelectKnown
      takes them), a string's characters; None when `j` is not iterable. */
  function Members(j: Json): (r: Option<seq<Json>>)
    ensures r.Some? <==> j.JList? || j.JObj? || j.JStr?
    ensures j.JList? ==> r == Some(j.items)
    ensures j.JObj? || j.JStr? ==> r.Some? && forall m :: m in r.value ==> m.JStr?
    ensures r.Some? ==> (r.value == [] <==> !Truthy(j))
  {
    match j
    case JList(items) => Some(items)
    case JObj(fields) =>
      var keys := Strs(SortedStrings(fields.Keys));
      assert forall m :: m in keys ==> m.JStr?;
      Some(keys)
    case JStr(s) =>
      var chars := Strs(Chars(s));
      assert forall m :: m in chars ==> m.JStr?;
      Some(chars)
    case _ => None
  }

  /** A list or a dict: a value Python cannot hash. */
  predicate Unhashable(j: Json) {
    j.JList? || j.JObj?
  }

  /** The string members of a list, in order. */
  function StringItems(items: seq<Json>): (r: seq<string>)
    ensures |r| <= |items|
    ensures forall x :: x in r <==> JStr(x) in items
  {
    if items == [] then []
    else
      var rest := StringItems(items[1..]);
      assert forall x :: JStr(x) in items <==> items[0] == JStr(x) || JStr(x) in items[1..];
      (if items[0].JStr? then [items[0].s] else []) + rest
  }

  /** The comprehension over a list, member by member. */
  function SelectKnownItems(items: seq<Json>, known: set<string>, hashed: bool): (r: Result<seq<string>>)
    ensures r.Err? <==> hashed && exists i :: 0 <= i < |items| && Unhashable(items[i])
    ensures r.Err? ==> r.error == TypeError
    ensures r.Ok? ==> r.value == KeepKnownLowered(StringItems(items), known)
  {
    if items == [] then Ok([])
    else
      var rest := SelectKnownItems(items[1..], known, hashed);
      assert forall i :: 0 < i < |items| ==> items[i] == items[1..][i - 1];
      if rest.Err? then Err(rest.error)
      else
        var head := if items[0].JStr? then [items[0].s] else [];
        KeepKnownLoweredConcat(head, StringItems(items[1..]), known);
        match items[0]
        case JList(_) => if hashed then Err(TypeError) else rest
        case JObj(_) => if hashed then Err(TypeError) else rest
        case JStr(s) => Ok((if s in known then [Lower(s)] else []) + rest.value)
        case _ => rest
  }

  /** The string members of a list of strings are those strings. */
  lemma {:induction false} StringItemsOfStrs(xs: seq<string>)
    ensures StringItems(Strs(xs)) == xs
    decreases |xs|
  {
    if xs != [] {
      assert Strs(xs)[1..] == Strs(xs[1..]);
      StringItemsOfStrs(xs[1..]);
    }
  }

  /** On a list of strings the selection is the filter-then-lower of those
      strings, in either membership mode, and cannot fail. */
  lemma SelectKnownStrings(xs: seq<string>, known: set<string>, hashed: bool)
    ensures SelectKnown(JList(Strs(xs)), known, hashed) == Ok(KeepKnownLowered(xs, known))
  {
    StringItemsOfStrs(xs);
  }
}
