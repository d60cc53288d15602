/**
 * `difflib.SequenceMatcher(a=x, b=y).find_longest_match(0, len(x), 0, len(y))`
 * without junk: the longest block common to `x` and `y`; among the longest,
 * the one starting earliest in `x`, then earliest in `y`; `Match(0, 0, 0)`
 * when nothing matches.
 */
module Difflib {
  /** A matching block: x[a:a+size] == y[b:b+size]. */
  datatype Match = Match(a: nat, b: nat, size: nat)

  predicate IsCommon(x: string, y: string, i: nat, j: nat, k: nat) {
    i + k <= |x| && j + k <= |y| && x[i..i + k] == y[j..j + k]
  }

  /** The contract `find_longest_match` documents. */
  ghost predicate IsLongestMatch(x: string, y: string, m: Match) {
    IsCommon(x, y, m.a, m.b, m.size)
    && (forall i: nat, j: nat, k: nat :: IsCommon(x, y, i, j, k) ==> k <= m.size)
    && (forall i: nat, j: nat :: IsCommon(x, y, i, j, m.size) ==> m.a < i || (m.a == i && m.b <= j))
  }

  /** The length of the longest common block starting at x[i] and y[j]. */
  function CommonLen(x: string, y: string, i: nat, j: nat): (k: nat)
    requires i <= |x| && j <= |y|
    ensures IsCommon(x, y, i, j, k)
    decreases |x| - i
  {
    if i < |x| && j < |y| && x[i] == y[j] then
      var k := 1 + CommonLen(x, y, i + 1, j + 1);
      assert x[i..i + k] == [x[i]] + x[i + 1..i + k];
      assert y[j..j + k] == [y[j]] + y[j + 1..j + k];
      k
    else 0
  }

  lemma {:induction false} CommonLenMax(x: string, y: string, i: nat, j: nat, k: nat)
    requires IsCommon(x, y, i, j, k)
    ensures i <= |x| && j <= |y| && k <= CommonLen(x, y, i, j)
    decreases |x| - i
  {
    if k > 0 {
      assert x[i] == x[i..i + k][0] == y[j..j + k][0] == y[j];
      assert x[i + 1..i + 1 + (k - 1)] == x[i..i + k][1..];
      assert y[j + 1..j + 1 + (k - 1)] == y[j..j + k][1..];
      CommonLenMax(x, y, i + 1, j + 1, k - 1);
    }
  }

  /** The best block starting at x[i] and at y[j..]; ties go to the smaller j. */
  function RowBest(x: string, y: string, i: nat, j: nat): Match
    requires i <= |x|
    decreases |y| - j
  {
    if j >= |y| then Match(0, 0, 0)
    else
      var rest := RowBest(x, y, i, j + 1);
      var k := CommonLen(x, y, i, j);
      if k >= rest.size then Match(i, j, k) else rest
  }

  /** The best block starting at x[i..]; ties go to the smaller i. */
  function GridBest(x: string, y: string, i: nat): Match
    decreases |x| - i
  {
    if i >= |x| then Match(0, 0, 0)
    else
      var row := RowBest(x, y, i, 0);
      var rest := GridBest(x, y, i + 1);
      if row.size >= rest.size then row else rest
  }

  function FindLongestMatch(x: string, y: string): (m: Match)
    ensures IsLongestMatch(x, y, m)
  {
    GridBestIsLongest(x, y);
    GridBest(x, y, 0)
  }

  lemma {:induction false} RowBestSpec(x: string, y: string, i: nat, j: nat)
    requires i < |x|
    ensures var m := RowBest(x, y, i, j);
      IsCommon(x, y, m.a, m.b, m.size)
      && (j < |y| ==> m.a == i && j <= m.b < |y| && m.size == CommonLen(x, y, i, m.b))
      && (j >= |y| ==> m == Match(0, 0, 0))
      && (forall jj :: j <= jj < |y| ==> CommonLen(x, y, i, jj) <= m.size)
      && (forall jj :: j <= jj < |y| && CommonLen(x, y, i, jj) == m.size ==> m.b <= jj)
    decreases |y| - j
  {
    if j < |y| {
      RowBestSpec(x, y, i, j + 1);
    }
  }

  /** Every block starting at x[i..] is no longer than `m`, and every one
      as long as `m` starts no earlier. */
  ghost predicate BestFrom(x: string, y: string, i: nat, m: Match) {
    (forall ii, jj :: i <= ii < |x| && 0 <= jj < |y| ==> CommonLen(x, y, ii, jj) <= m.size)
    && (forall ii, jj :: i <= ii < |x| && 0 <= jj < |y| && CommonLen(x, y, ii, jj) == m.size ==>
          m.a < ii || (m.a == ii && m.b <= jj))
  }

  lemma {:induction false} GridBestSpec(x: string, y: string, i: nat)
    ensures var m := GridBest(x, y, i);
      IsCommon(x, y, m.a, m.b, m.size)
      && (m.size > 0 ==> i <= m.a < |x| && m.b < |y| && m.size == CommonLen(x, y, m.a, m.b))
      && BestFrom(x, y, i, m)
    decreases |x| - i
  {
    if i < |x| {
      var row := RowBest(x, y, i, 0);
      var rest := GridBest(x, y, i + 1);
      RowBestSpec(x, y, i, 0);
      GridBestSpec(x, y, i + 1);
      var m := GridBest(x, y, i);
      forall ii, jj | i <= ii < |x| && 0 <= jj < |y|
        ensures CommonLen(x, y, ii, jj) <= m.size
        ensures CommonLen(x, y, ii, jj) == m.size ==> m.a < ii || (m.a == ii && m.b <= jj)
      {
        if ii > i {
          assert CommonLen(x, y, ii, jj) <= rest.size;
        }
      }
    }
  }

  lemma GridBestIsLongest(x: string, y: string)
    ensures IsLongestMatch(x, y, GridBest(x, y, 0))
  {
    var m := GridBest(x, y, 0);
    GridBestSpec(x, y, 0);
    forall i: nat, j: nat, k: nat | IsCommon(x, y, i, j, k)
      ensures k <= m.size
    {
      if k > 0 {
        CommonLenMax(x, y, i, j, k);
      }
    }
    forall i: nat, j: nat | IsCommon(x, y, i, j, m.size)
      ensures m.a < i || (m.a == i && m.b <= j)
    {
      if m.size > 0 {
        CommonLenMax(x, y, i, j, m.size);
      } else if |x| > 0 && |y| > 0 {
        assert CommonLen(x, y, 0, 0) <= m.size;
      } else {
        ZeroMatchIsOrigin(x, y);
      }
    }
  }

  /** With an empty side, the search returns Match(0, 0, 0). */
  lemma ZeroMatchIsOrigin(x: string, y: string)
    requires |x| == 0 || |y| == 0
    ensures GridBest(x, y, 0) == Match(0, 0, 0)
  {
    if |x| > 0 {
      RowBestSpec(x, y, 0, 0);
      GridBestSpec(x, y, 1);
    }
  }

  /** The longest match is unique: the contract pins it down. */
  lemma LongestMatchUnique(x: string, y: string, m1: Match, m2: Match)
    requires IsLongestMatch(x, y, m1) && IsLongestMatch(x, y, m2)
    ensures m1 == m2
  {
    assert m1.size <= m2.size && m2.size <= m1.size;
  }
}
