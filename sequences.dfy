/** Python list and numpy array operations the modelled code relies on,
    written over Dafny sequences. */
module Sequences {

  /** `[x] * n` in Python: n copies of x, and the empty list for n <= 0. */
  function Repeat<T>(x: T, n: int): (r: seq<T>)
    ensures |r| == if n <= 0 then 0 else n
    ensures forall i :: 0 <= i < |r| ==> r[i] == x
  {
    if n <= 0 then [] else seq(n, _ => x)
  }

  /** `s[:n]` in Python: a negative n counts from the end. */
  function Take<T>(s: seq<T>, n: int): (r: seq<T>)
    ensures 0 <= n ==> |r| == if n < |s| then n else |s|
    ensures n < 0 ==> |r| == if |s| + n < 0 then 0 else |s| + n
    ensures forall i :: 0 <= i < |r| ==> r[i] == s[i]
  {
    if 0 <= n then (if n < |s| then s[..n] else s)
    else if |s| + n < 0 then [] else s[..|s| + n]
  }

  /** Number of true entries of a boolean mask. */
  function Count(m: seq<bool>): (c: nat)
    ensures c <= |m|
  {
    if m == [] then 0 else (if m[0] then 1 else 0) + Count(m[1..])
  }

  /** numpy boolean indexing `a[mask]` (and pandas `df.loc[mask]` on an
      aligned mask): the entries whose mask value is true, in order. */
  function Select<T>(s: seq<T>, m: seq<bool>): (r: seq<T>)
    requires |s| == |m|
    ensures |r| == Count(m)
  {
    if s == [] then [] else (if m[0] then [s[0]] else []) + Select(s[1..], m[1..])
  }

  /** The sequence with exactly position i removed, order kept. */
  function RemoveAt<T>(s: seq<T>, i: nat): (r: seq<T>)
    requires i < |s|
    ensures |r| == |s| - 1
    ensures forall j :: 0 <= j < i ==> r[j] == s[j]
    ensures forall j :: i <= j < |r| ==> r[j] == s[j + 1]
  {
    s[..i] + s[i + 1..]
  }

  /** numpy `np.ones(n, dtype=bool)` with entry i set to False. */
  function AllTrueExcept(n: nat, i: nat): (m: seq<bool>)
    ensures |m| == n
  {
    seq(n, j => j != i)
  }

  /** A mask with every entry true selects everything. */
  lemma {:induction false} SelectAllTrue<T>(s: seq<T>, m: seq<bool>)
    requires |s| == |m|
    requires forall j :: 0 <= j < |m| ==> m[j]
    ensures Select(s, m) == s
  {
    if s != [] {
      SelectAllTrue(s[1..], m[1..]);
    }
  }

  /** Selecting through the mask that is false only at i removes exactly
      position i and keeps the relative order of the rest. */
  lemma {:induction false} SelectAllTrueExcept<T>(s: seq<T>, i: nat)
    requires i < |s|
    ensures Select(s, AllTrueExcept(|s|, i)) == RemoveAt(s, i)
  {
    var m := AllTrueExcept(|s|, i);
    if i == 0 {
      assert m[1..] == seq(|s| - 1, _ => true);
      SelectAllTrue(s[1..], m[1..]);
      assert s[1..] == RemoveAt(s, 0);
    } else {
      assert m[1..] == AllTrueExcept(|s| - 1, i - 1);
      SelectAllTrueExcept(s[1..], i - 1);
      assert [s[0]] + RemoveAt(s[1..], i - 1) == RemoveAt(s, i);
    }
  }

  /** Every position moved one place on. */
  function Shift(ps: seq<nat>): (r: seq<nat>)
    ensures |r| == |ps| && forall k :: 0 <= k < |ps| ==> r[k] == ps[k] + 1
  {
    seq(|ps|, k requires 0 <= k < |ps| => ps[k] + 1)
  }

  /** The positions of a mask's true entries, in increasing order. */
  function TruePositions(m: seq<bool>): (ps: seq<nat>)
    ensures |ps| == Count(m)
    ensures forall k :: 0 <= k < |ps| ==> ps[k] < |m| && m[ps[k]]
    ensures forall k, l :: 0 <= k < l < |ps| ==> ps[k] < ps[l]
  {
    if m == [] then []
    else
      var shifted := Shift(TruePositions(m[1..]));
      assert forall k :: 0 <= k < |shifted| ==> m[shifted[k]] == m[1..][shifted[k] - 1];
      if m[0] then [0] + shifted else shifted
  }

  /** Every true position of the mask is listed. */
  lemma {:induction false} TruePositionsComplete(m: seq<bool>, i: nat)
    requires i < |m| && m[i]
    ensures i in TruePositions(m)
  {
    var rest := TruePositions(m[1..]);
    var shifted := Shift(rest);
    assert TruePositions(m) == if m[0] then [0] + shifted else shifted;
    if i == 0 {
      assert TruePositions(m)[0] == i;
    } else {
      TruePositionsComplete(m[1..], i - 1);
      var k :| 0 <= k < |rest| && rest[k] == i - 1;
      assert shifted[k] == i;
      if m[0] {
        assert TruePositions(m)[k + 1] == i;
      } else {
        assert TruePositions(m)[k] == i;
      }
    }
  }

  /** Boolean indexing reads the entries at the true positions; two arrays
      selected through the same mask therefore stay aligned. */
  lemma {:induction false} SelectAt<T>(s: seq<T>, m: seq<bool>)
    requires |s| == |m|
    ensures forall k :: 0 <= k < |Select(s, m)| ==> Select(s, m)[k] == s[TruePositions(m)[k]]
  {
    if s != [] {
      SelectAt(s[1..], m[1..]);
    }
  }

  /** An entry is selected exactly when some true position holds it. */
  lemma SelectMembership<T>(s: seq<T>, m: seq<bool>, x: T)
    requires |s| == |m|
    ensures x in Select(s, m) <==> exists i :: 0 <= i < |s| && m[i] && s[i] == x
  {
    SelectAt(s, m);
    var ps := TruePositions(m);
    if x in Select(s, m) {
      var k :| 0 <= k < |Select(s, m)| && Select(s, m)[k] == x;
      assert s[ps[k]] == x && m[ps[k]];
    }
    if exists i :: 0 <= i < |s| && m[i] && s[i] == x {
      var i :| 0 <= i < |s| && m[i] && s[i] == x;
      TruePositionsComplete(m, i);
      var k :| 0 <= k < |ps| && ps[k] == i;
      assert Select(s, m)[k] == x;
    }
  }

  /** A mask with every entry false selects nothing. */
  lemma {:induction false} SelectNoneTrue<T>(s: seq<T>, m: seq<bool>)
    requires |s| == |m|
    requires forall j :: 0 <= j < |m| ==> !m[j]
    ensures Select(s, m) == []
  {
    if s != [] {
      SelectNoneTrue(s[1..], m[1..]);
    }
  }

  /** No entry occurs twice. */
  predicate Distinct<T(==)>(s: seq<T>)
  {
    forall i, j :: 0 <= i < j < |s| ==> s[i] != s[j]
  }

  /** The first position holding x. */
  function IndexOf<T(==)>(s: seq<T>, x: T): (i: nat)
    requires x in s
    ensures i < |s| && s[i] == x
    ensures forall j :: 0 <= j < i ==> s[j] != x
  {
    if s[0] == x then 0 else 1 + IndexOf(s[1..], x)
  }

  /** Concatenation is associative; stated over plain variables so that a
      proof can use it without unfolding the terms it is applied to. */
  lemma ConcatAssoc<T>(a: seq<T>, b: seq<T>, c: seq<T>)
    ensures a + (b + c) == (a + b) + c
  {
  }

  /** In a sequence without repeats, the position of an entry is unique. */
  lemma IndexOfDistinct<T>(s: seq<T>, i: nat)
    requires Distinct(s) && i < |s|
    ensures IndexOf(s, s[i]) == i
  {
  }

  function Sum(s: seq<real>): real
  {
    if s == [] then 0.0 else s[0] + Sum(s[1..])
  }

  /** numpy `np.mean`: only called here on non-empty arrays. */
  function Mean(s: seq<real>): real
    requires |s| > 0
  {
    Sum(s) / (|s| as real)
  }

  /** Sum of squared deviations from c, `np.sum((s - c) ** 2)`. */
  function SumSqDev(s: seq<real>, c: real): (r: real)
    ensures r >= 0.0
  {
    if s == [] then 0.0
    else
      var d := s[0] - c;
      SquareNonNegative(d);
      d * d + SumSqDev(s[1..], c)
  }

  lemma SquareNonNegative(d: real)
    ensures d * d >= 0.0
  {
    if d < 0.0 {
      assert d * d == (-d) * (-d);
    }
  }

  /** A sum of squared deviations vanishes when every entry equals the centre. */
  lemma {:induction false} SumSqDevConstant(s: seq<real>, c: real)
    requires forall j :: 0 <= j < |s| ==> s[j] == c
    ensures SumSqDev(s, c) == 0.0
  {
    if s != [] {
      SumSqDevConstant(s[1..], c);
    }
  }

  /** The mean of a constant sequence is that constant. */
  lemma {:induction false} SumConstant(s: seq<real>, c: real)
    requires forall j :: 0 <= j < |s| ==> s[j] == c
    ensures Sum(s) == (|s| as real) * c
  {
    if s != [] {
      SumConstant(s[1..], c);
    }
  }

  lemma MeanConstant(s: seq<real>, c: real)
    requires |s| > 0
    requires forall j :: 0 <= j < |s| ==> s[j] == c
    ensures Mean(s) == c
  {
    SumConstant(s, c);
  }
}
