/**
 * The Python built-ins the modelled code leans on, stated over `string`
 * (a sequence of Unicode code points, as Python's `str` is): `t in s`,
 * `s.split(sep)[0]`, slicing with clamped bounds, `lstrip`, `lower`,
 * `str(n)` and `int(x)` for a float, `sep.join(xs)`, and the order in
 * which a `set` is iterated.
 */
module Py {
  import opened Wrappers

  // ----- Substrings -------------------------------------------------------

  predicate IsPrefix(p: string, s: string) {
    |p| <= |s| && s[..|p|] == p
  }

  /** Python's `t in s` for strings. */
  predicate Contains(s: string, t: string)
    decreases |s|
  {
    IsPrefix(t, s) || (|s| > 0 && Contains(s[1..], t))
  }

  lemma {:induction false} ContainsAt(s: string, t: string, i: nat)
    requires i + |t| <= |s| && s[i..i + |t|] == t
    ensures Contains(s, t)
    decreases i
  {
    if i == 0 {
      assert s[..|t|] == t;
    } else {
      assert s[1..][i - 1..i - 1 + |t|] == s[i..i + |t|];
      ContainsAt(s[1..], t, i - 1);
    }
  }

  /** A string placed between two others is found in the concatenation. */
  lemma ContainsMiddle(a: string, t: string, b: string)
    ensures Contains(a + t + b, t)
  {
    var s := a + t + b;
    assert s[|a|..|a| + |t|] == t;
    ContainsAt(s, t, |a|);
  }

  /** `Contains` holds exactly when some window of `s` equals `t`. */
  lemma {:induction false} ContainsWitness(s: string, t: string) returns (i: nat)
    requires Contains(s, t)
    ensures i + |t| <= |s| && s[i..i + |t|] == t
    decreases |s|
  {
    if IsPrefix(t, s) {
      i := 0;
    } else {
      var j := ContainsWitness(s[1..], t);
      assert s[1..][j..j + |t|] == s[j + 1..j + 1 + |t|];
      i := j + 1;
    }
  }

  /** Substring containment is transitive. */
  lemma ContainsTrans(s: string, m: string, t: string)
    requires Contains(s, m) && Contains(m, t)
    ensures Contains(s, t)
  {
    var i := ContainsWitness(s, m);
    var j := ContainsWitness(m, t);
    forall k | 0 <= k < |t|
      ensures s[i + j + k] == t[k]
    {
      assert s[i + j + k] == s[i..i + |m|][j + k] == m[j + k];
      assert m[j + k] == m[j..j + |t|][k];
    }
    assert s[i + j..i + j + |t|] == t;
    ContainsAt(s, t, i + j);
  }

  /** No window of `s` equal to `t` means `t` is not in `s`. */
  lemma NoWindow(s: string, t: string)
    requires forall i: nat :: !WindowIs(s, t, i)
    ensures !Contains(s, t)
  {
    if Contains(s, t) {
      var i := ContainsWitness(s, t);
      assert WindowIs(s, t, i);
    }
  }

  predicate WindowIs(s: string, t: string, i: nat) {
    i + |t| <= |s| && s[i..i + |t|] == t
  }

  lemma WindowNotEqual(p: string, t: string, i: nat)
    requires !Contains(p, t) && i + |t| <= |p|
    ensures p[i..i + |t|] != t
  {
    if p[i..i + |t|] == t {
      ContainsAt(p, t, i);
    }
  }

  /** Appending characters that `t` does not use cannot create an occurrence of `t`. */
  lemma NotContainsAppend(p: string, q: string, t: string)
    requires |t| > 0 && !Contains(p, t)
    requires forall k :: 0 <= k < |q| ==> q[k] !in t
    ensures !Contains(p + q, t)
  {
    forall i: nat
      ensures !WindowIs(p + q, t, i)
    {
      if i + |t| > |p + q| {
      } else if i + |t| <= |p| {
        assert (p + q)[i..i + |t|] == p[i..i + |t|];
        WindowNotEqual(p, t, i);
      } else if i >= |p| {
        assert (p + q)[i..i + |t|][0] == q[i - |p|];
      } else {
        assert (p + q)[i..i + |t|][|p| - i] == q[0];
      }
    }
    NoWindow(p + q, t);
  }

  // ----- s.split(sep)[0] --------------------------------------------------

  /**
   * `s.split(sep)[0]`: the text of `s` before the first occurrence of
   * `sep`, or all of `s` when `sep` does not occur. Python raises
   * ValueError for an empty separator; every caller modelled here passes a
   * literal non-empty one, except where the caller models that error.
   */
  function Before(s: string, sep: string): (r: string)
    requires sep != []
    ensures IsPrefix(r, s)
    decreases |s|
  {
    if |s| < |sep| then s
    else if IsPrefix(sep, s) then []
    else [s[0]] + Before(s[1..], sep)
  }

  /** The prefix `Before` returns never holds the separator. */
  lemma {:induction false} BeforeHasNoSep(s: string, sep: string)
    requires sep != []
    ensures !Contains(Before(s, sep), sep)
    decreases |s|
  {
    if |s| < |sep| {
      NotContainsShort(s, sep);
    } else if IsPrefix(sep, s) {
      NotContainsShort([], sep);
    } else {
      BeforeHasNoSep(s[1..], sep);
      var r := Before(s, sep);
      assert r[1..] == Before(s[1..], sep);
    }
  }

  lemma NotContainsShort(s: string, t: string)
    requires |s| < |t|
    ensures !Contains(s, t)
  {
    if Contains(s, t) {
      var i := ContainsWitness(s, t);
    }
  }

  /** When the separator does not occur, the whole string comes back. */
  lemma {:induction false} BeforeAbsent(s: string, sep: string)
    requires sep != [] && !Contains(s, sep)
    ensures Before(s, sep) == s
    decreases |s|
  {
    if |s| >= |sep| {
      assert !IsPrefix(sep, s);
      BeforeAbsent(s[1..], sep);
    }
  }

  /** A string whose first character never recurs cannot overlap itself. */
  predicate HeadUnique(sep: string) {
    |sep| > 0 && forall k :: 0 < k < |sep| ==> sep[k] != sep[0]
  }

  /**
   * Appending the separator (and anything after it) to `p` leaves the text
   * before the first separator unchanged, for separators such as "merged",
   * ".tif", ".vrt" and ".jp2" whose first character does not recur.
   */
  lemma {:induction false} BeforeAppend(p: string, sep: string, rest: string)
    requires HeadUnique(sep)
    ensures Before(p + sep + rest, sep) == Before(p, sep)
    decreases |p|
  {
    var s := p + sep + rest;
    if |p| == 0 {
      assert s == sep + rest;
      assert IsPrefix(sep, s);
      assert Before(p, sep) == [];
    } else {
      if |p| < |sep| {
        NoStraddle(p, sep, rest);
      }
      if IsPrefix(sep, s) {
        assert p[..|sep|] == s[..|sep|];
      } else {
        assert s[1..] == p[1..] + sep + rest;
        BeforeAppend(p[1..], sep, rest);
        if |p| >= |sep| {
          assert s[..|sep|] == p[..|sep|];
        }
      }
    }
  }

  /** An occurrence of `sep` cannot start inside a shorter `p` and run on
      into the `sep` that follows it. */
  lemma NoStraddle(p: string, sep: string, rest: string)
    requires HeadUnique(sep) && 0 < |p| < |sep|
    ensures !IsPrefix(sep, p + sep + rest)
  {
    var s := p + sep + rest;
    assert s[|p|] == sep[0];
    assert s[..|sep|][|p|] != sep[|p|];
  }

  /** The separators the scripts split file names on. */
  lemma HeadUniqueNames()
    ensures HeadUnique("merged") && HeadUnique(".tif") && HeadUnique(".vrt") && HeadUnique(".jp2")
  {
  }

  /** Corollary: with no separator in `p`, `p + sep + rest` splits back to `p`. */
  lemma BeforeRoundTrip(p: string, sep: string, rest: string)
    requires HeadUnique(sep) && !Contains(p, sep)
    ensures Before(p + sep + rest, sep) == p
  {
    BeforeAppend(p, sep, rest);
    BeforeAbsent(p, sep);
  }

  // ----- Slicing ----------------------------------------------------------

  function Min(a: int, b: int): int { if a <= b then a else b }
  function Max(a: int, b: int): int { if a >= b then a else b }

  /** `s[i:j]` for non-negative `i` and `j`: bounds are clamped to `len(s)`. */
  function Slice<T>(s: seq<T>, i: nat, j: nat): (r: seq<T>)
    ensures |r| == if Min(j, |s|) <= i then 0 else Min(j, |s|) - i
    ensures forall k :: 0 <= k < |r| ==> r[k] == s[i + k]
  {
    if Min(j, |s|) <= i then [] else s[i..Min(j, |s|)]
  }

  /** `s[i:]` for non-negative `i`. */
  function Drop<T>(s: seq<T>, i: nat): (r: seq<T>)
    ensures |r| == if |s| <= i then 0 else |s| - i
    ensures forall k :: 0 <= k < |r| ==> r[k] == s[i + k]
  {
    if |s| <= i then [] else s[i..]
  }

  /** Cutting a sequence at any point and gluing the pieces gives it back. */
  lemma SliceSplit<T>(s: seq<T>, a: nat, b: nat)
    requires a <= b
    ensures Slice(s, 0, a) + Slice(s, a, b) + Drop(s, b) == s
  {
    if |s| <= a {
    } else if |s| <= b {
      assert s[..a] + s[a..] == s;
    } else {
      assert s[..a] + s[a..b] + s[b..] == s;
    }
  }

  /** Extending a slice by one element. */
  lemma SliceSnoc<T>(s: seq<T>, a: nat, b: nat)
    requires a <= b < |s|
    ensures s[a..b + 1] == s[a..b] + [s[b]]
  {
  }

  // ----- lstrip, lower ----------------------------------------------------

  /** `s.lstrip(c)` for a one-character argument. */
  function LStrip(s: string, c: char): (r: string)
    ensures |r| <= |s| && r == s[|s| - |r|..]
    ensures |r| > 0 ==> r[0] != c
    ensures forall k :: 0 <= k < |s| - |r| ==> s[k] == c
  {
    if |s| > 0 && s[0] == c then LStrip(s[1..], c) else s
  }

  function LowerChar(c: char): char {
    if 'A' <= c <= 'Z' then (c as int - 'A' as int + 'a' as int) as char else c
  }

  /** `s.lower()` on the ASCII letters (other characters are kept). */
  function Lower(s: string): (r: string)
    ensures |r| == |s|
    ensures forall k :: 0 <= k < |s| ==> r[k] == LowerChar(s[k])
  {
    seq(|s|, k requires 0 <= k < |s| => LowerChar(s[k]))
  }

  predicate IsLower(s: string) {
    forall k :: 0 <= k < |s| ==> !('A' <= s[k] <= 'Z')
  }

  lemma LowerOfLower(s: string)
    requires IsLower(s)
    ensures Lower(s) == s
  {
  }

  // ----- The filter-then-lower comprehension ------------------------------

  /**
   * `[x.lower() for x in xs if x in known]`, the selection the grabbers
   * apply to write_styles and landcover_indices.
   */
  function KeepKnownLowered(xs: seq<string>, known: set<string>): (r: seq<string>)
    ensures |r| <= |xs|
  {
    if xs == [] then []
    else (if xs[0] in known then [Lower(xs[0])] else []) + KeepKnownLowered(xs[1..], known)
  }

  /** The selection works element by element: it distributes over `+`. */
  lemma {:induction false} KeepKnownLoweredConcat(a: seq<string>, b: seq<string>, known: set<string>)
    ensures KeepKnownLowered(a + b, known) == KeepKnownLowered(a, known) + KeepKnownLowered(b, known)
    decreases |a|
  {
    if a == [] {
      assert a + b == b;
    } else {
      var head := if a[0] in known then [Lower(a[0])] else [];
      assert (a + b)[0] == a[0];
      assert (a + b)[1..] == a[1..] + b;
      KeepKnownLoweredConcat(a[1..], b, known);
      assert KeepKnownLowered(a + b, known) == head + KeepKnownLowered(a[1..] + b, known);
      assert KeepKnownLowered(a, known) == head + KeepKnownLowered(a[1..], known);
    }
  }

  /** Every selected name is the lower-case form of a known input name, and
      every known input name is selected. */
  lemma {:induction false} KeepKnownLoweredMembers(xs: seq<string>, known: set<string>, y: string)
    ensures y in KeepKnownLowered(xs, known) <==> exists i :: 0 <= i < |xs| && xs[i] in known && Lower(xs[i]) == y
    decreases |xs|
  {
    if xs != [] {
      KeepKnownLoweredMembers(xs[1..], known, y);
      if y in KeepKnownLowered(xs[1..], known) {
        var i :| 0 <= i < |xs[1..]| && xs[1..][i] in known && Lower(xs[1..][i]) == y;
        assert xs[i + 1] in known && Lower(xs[i + 1]) == y;
      }
      if exists i :: 0 <= i < |xs| && xs[i] in known && Lower(xs[i]) == y {
        var i :| 0 <= i < |xs| && xs[i] in known && Lower(xs[i]) == y;
        if i > 0 {
          assert xs[1..][i - 1] == xs[i];
        }
      }
    }
  }

  /** Selecting twice is selecting once, when every known name is lower case. */
  lemma {:induction false} KeepKnownLoweredIdempotent(xs: seq<string>, known: set<string>)
    requires forall k | k in known :: IsLower(k)
    ensures KeepKnownLowered(KeepKnownLowered(xs, known), known) == KeepKnownLowered(xs, known)
    decreases |xs|
  {
    if xs != [] {
      var head := if xs[0] in known then [Lower(xs[0])] else [];
      var tail := KeepKnownLowered(xs[1..], known);
      KeepKnownLoweredConcat(head, tail, known);
      KeepKnownLoweredIdempotent(xs[1..], known);
      if xs[0] in known {
        LowerOfLower(xs[0]);
        assert KeepKnownLowered(head, known) == head by {
          assert head[1..] == [];
        }
      }
    }
  }

  // ----- sep.join(xs) -----------------------------------------------------

  function Join(sep: string, xs: seq<string>): string {
    if xs == [] then []
    else if |xs| == 1 then xs[0]
    else xs[0] + sep + Join(sep, xs[1..])
  }

  /** POSIX `os.path.join(a, b)`: an absolute `b` wins; otherwise a slash is
      inserted unless `a` is empty or already ends in one. */
  function PathJoin(a: string, b: string): (r: string)
    ensures |r| >= |b| && r[|r| - |b|..] == b
    ensures |b| > 0 && b[0] == '/' ==> r == b
    ensures a != [] && a[|a| - 1] != '/' && !(|b| > 0 && b[0] == '/') ==> r == a + "/" + b
  {
    if |b| > 0 && b[0] == '/' then b
    else if a == [] || a[|a| - 1] == '/' then a + b
    else a + "/" + b
  }

  /** Every joined item occurs in the joined string. */
  lemma {:induction false} JoinContains(sep: string, xs: seq<string>, i: nat)
    requires i < |xs|
    ensures Contains(Join(sep, xs), xs[i])
    decreases |xs|
  {
    if |xs| == 1 {
      ContainsMiddle([], xs[0], []);
      assert [] + xs[0] + [] == xs[0];
    } else if i == 0 {
      ContainsMiddle([], xs[0], sep + Join(sep, xs[1..]));
      assert [] + xs[0] + (sep + Join(sep, xs[1..])) == Join(sep, xs);
    } else {
      JoinContains(sep, xs[1..], i - 1);
      var j := ContainsWitness(Join(sep, xs[1..]), xs[i]);
      var pre := xs[0] + sep;
      assert Join(sep, xs) == pre + Join(sep, xs[1..]);
      assert Join(sep, xs)[|pre| + j..|pre| + j + |xs[i]|] == Join(sep, xs[1..])[j..j + |xs[i]|];
      ContainsAt(Join(sep, xs), xs[i], |pre| + j);
    }
  }

  // ----- str(n) and int(s) ------------------------------------------------

  function DigitChar(d: nat): char
    requires d < 10
  {
    ('0' as int + d) as char
  }

  predicate IsDigit(c: char) { '0' <= c <= '9' }

  function DigitValue(c: char): nat
    requires IsDigit(c)
  {
    c as int - '0' as int
  }

  /** `str(n)` for a non-negative integer: decimal digits, no leading zero. */
  function NatToString(n: nat): (r: string)
    ensures |r| > 0 && forall k :: 0 <= k < |r| ==> IsDigit(r[k])
    decreases n
  {
    if n < 10 then [DigitChar(n)] else NatToString(n / 10) + [DigitChar(n % 10)]
  }

  /** `str(i)` for any integer. */
  function IntToString(i: int): string {
    if i < 0 then "-" + NatToString(-i) else NatToString(i)
  }

  /** `int(s)` for a string of decimal digits. */
  function ParseNat(s: string): nat
    requires forall k :: 0 <= k < |s| ==> IsDigit(s[k])
    decreases |s|
  {
    if s == [] then 0 else ParseNat(s[..|s| - 1]) * 10 + DigitValue(s[|s| - 1])
  }

  /** Parsing the decimal rendering of `n` gives `n` back. */
  lemma {:induction false} ParseNatToString(n: nat)
    ensures ParseNat(NatToString(n)) == n
    decreases n
  {
    var s := NatToString(n);
    if n < 10 {
      assert s[..0] == [];
    } else {
      ParseNatToString(n / 10);
      assert s[..|s| - 1] == NatToString(n / 10);
    }
  }

  /** Distinct numbers have distinct renderings. */
  lemma NatToStringInjective(a: nat, b: nat)
    requires NatToString(a) == NatToString(b)
    ensures a == b
  {
    ParseNatToString(a);
    ParseNatToString(b);
  }

  /** Python's `int(x)` for a float: truncation toward zero. */
  function TruncToInt(x: real): (r: int)
    ensures x >= 0.0 ==> r as real <= x < r as real + 1.0
    ensures x < 0.0 ==> r as real - 1.0 < x <= r as real
  {
    if x >= 0.0 then x.Floor else -((-x).Floor)
  }

  /** Truncation toward zero never decreases when its argument grows. */
  lemma TruncMonotone(x: real, y: real)
    requires x <= y
    ensures TruncToInt(x) <= TruncToInt(y)
  {
  }

  // ----- Lexicographic order and the sorted keys of a dict ----------------

  /** `a <= b` on Python strings: code point by code point, a prefix first. */
  predicate StrLe(a: string, b: string)
    decreases |a|
  {
    a == [] || (b != [] && (a[0] < b[0] || (a[0] == b[0] && StrLe(a[1..], b[1..]))))
  }

  lemma {:induction false} StrLeRefl(a: string)
    ensures StrLe(a, a)
    decreases |a|
  {
    if a != [] {
      StrLeRefl(a[1..]);
    }
  }

  lemma {:induction false} StrLeTotal(a: string, b: string)
    ensures StrLe(a, b) || StrLe(b, a)
    decreases |a|
  {
    if a != [] && b != [] && a[0] == b[0] {
      StrLeTotal(a[1..], b[1..]);
    }
  }

  lemma {:induction false} StrLeAntisym(a: string, b: string)
    requires StrLe(a, b) && StrLe(b, a)
    ensures a == b
    decreases |a|
  {
    if a != [] {
      assert b != [] && a[0] == b[0];
      StrLeAntisym(a[1..], b[1..]);
      assert a == [a[0]] + a[1..] && b == [b[0]] + b[1..];
    }
  }

  lemma {:induction false} StrLeTrans(a: string, b: string, c: string)
    requires StrLe(a, b) && StrLe(b, c)
    ensures StrLe(a, c)
    decreases |a|
  {
    if a != [] && b != [] && c != [] && a[0] == b[0] && b[0] == c[0] {
      StrLeTrans(a[1..], b[1..], c[1..]);
    }
  }

  lemma StrLeAntisymAll()
    ensures forall a, b :: StrLe(a, b) && StrLe(b, a) ==> a == b
  {
    forall a, b | StrLe(a, b) && StrLe(b, a)
      ensures a == b
    {
      StrLeAntisym(a, b);
    }
  }

  /** m is in s and no string of s is below it. */
  predicate IsLeast(m: string, s: set<string>) {
    m in s && forall k :: k in s ==> StrLe(m, k)
  }

  /** Adding x to a set with least element m gives the smaller of x and m. */
  lemma AddToLeast(x: string, m: string, s: set<string>)
    requires IsLeast(m, s)
    ensures IsLeast(x, s + {x}) || IsLeast(m, s + {x})
  {
    StrLeRefl(x);
    StrLeTotal(x, m);
    if StrLe(x, m) {
      forall k | k in s + {x}
        ensures StrLe(x, k)
      {
        if k != x {
          StrLeTrans(x, m, k);
        }
      }
    }
  }

  /** Every finite non-empty set of strings has a least element. */
  lemma {:induction false} LeastExists(s: set<string>)
    requires s != {}
    ensures exists m :: IsLeast(m, s)
    decreases |s|
  {
    var x :| x in s;
    if s == {x} {
      StrLeRefl(x);
      assert IsLeast(x, s);
    } else {
      LeastExists(s - {x});
      var m :| IsLeast(m, s - {x});
      AddToLeast(x, m, s - {x});
      assert s - {x} + {x} == s;
    }
  }

  /** The strings of a set in increasing order. */
  function SortedStrings(s: set<string>): (r: seq<string>)
    ensures |r| == |s|
    ensures forall k :: k in r <==> k in s
    ensures forall i, j :: 0 <= i < j < |r| ==> StrLe(r[i], r[j])
    decreases |s|
  {
    if s == {} then []
    else
      LeastExists(s);
      StrLeAntisymAll();
      var m :| IsLeast(m, s);
      var rest := SortedStrings(s - {m});
      assert forall j :: 0 <= j < |rest| ==> rest[j] in rest;
      [m] + rest
  }

  // ----- Distinct sequences and the iteration order of a set --------------

  predicate Distinct<T(==)>(xs: seq<T>) {
    forall i, j :: 0 <= i < j < |xs| ==> xs[i] != xs[j]
  }

  /**
   * Iterating a Python `set`: the elements come out once each, in an order
   * the program does not control. The nondeterministic choice below stands
   * for that order.
   */
  method Enumerate<T(==)>(s: set<T>) returns (xs: seq<T>)
    ensures Distinct(xs) && |xs| == |s|
    ensures forall x :: x in xs <==> x in s
  {
    xs := [];
    var rest := s;
    while rest != {}
      invariant Distinct(xs)
      invariant forall x :: x in xs <==> x in s && x !in rest
      invariant rest <= s
      invariant |xs| + |rest| == |s|
      decreases |rest|
    {
      var x :| x in rest;
      xs := xs + [x];
      rest := rest - {x};
    }
  }
}
