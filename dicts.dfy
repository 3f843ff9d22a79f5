// Python dictionaries with string keys: insertion-ordered lists of key/value
// pairs with no key repeated, and the assignment and update operations that
// build them.

module Dicts {
  import opened Wrappers
  import opened Sequences

  /** The keys of a list of pairs, in order. */
  function KeysOf<V>(ps: seq<(string, V)>): (ks: seq<string>)
    ensures |ks| == |ps| && forall i :: 0 <= i < |ps| ==> ks[i] == ps[i].0
  {
    seq(|ps|, i requires 0 <= i < |ps| => ps[i].0)
  }

  predicate IsDict<V>(d: seq<(string, V)>)
  {
    Distinct(KeysOf(d))
  }

  /** A dictionary: its items in insertion order, each key once. */
  type Dict<V> = d: seq<(string, V)> | IsDict(d) witness []

  /** `d.get(k)`: the value stored under k, if any. */
  function Lookup<V>(d: Dict<V>, k: string): (r: Option<V>)
    ensures r.Some? <==> k in KeysOf(d)
    ensures r.Some? ==> exists i :: 0 <= i < |d| && d[i] == (k, r.value)
  {
    if k in KeysOf(d) then
      var i := IndexOf(KeysOf(d), k);
      Some(d[i].1)
    else None
  }

  /** The value an item stores under a key it holds. */
  lemma LookupAt<V>(d: Dict<V>, i: nat)
    requires i < |d|
    ensures Lookup(d, d[i].0) == Some(d[i].1)
  {
    IndexOfDistinct(KeysOf(d), i);
  }

  /** `d[k] = v`: an existing key keeps its place and takes the new value, a
      new key goes at the end. */
  function Insert<V>(d: Dict<V>, k: string, v: V): (r: Dict<V>)
    ensures KeysOf(r) == if k in KeysOf(d) then KeysOf(d) else KeysOf(d) + [k]
    ensures forall k' :: Lookup(r, k') == if k' == k then Some(v) else Lookup(d, k')
  {
    if k in KeysOf(d) then
      var i := IndexOf(KeysOf(d), k);
      var r := d[i := (k, v)];
      assert KeysOf(r) == KeysOf(d);
      forall k' ensures Lookup(r, k') == if k' == k then Some(v) else Lookup(d, k') {
        if k' in KeysOf(d) {
          var j := IndexOf(KeysOf(d), k');
          IndexOfDistinct(KeysOf(r), j);
        }
      }
      r
    else
      var r := d + [(k, v)];
      assert KeysOf(r) == KeysOf(d) + [k];
      forall k' ensures Lookup(r, k') == if k' == k then Some(v) else Lookup(d, k') {
        if k' in KeysOf(d) {
          var j := IndexOf(KeysOf(d), k');
          IndexOfDistinct(KeysOf(r), j);
        } else if k' == k {
          IndexOfDistinct(KeysOf(r), |d|);
        }
      }
      r
  }

  /** `d.update(ps)`: the pairs assigned one after another, left to right.
      A dict comprehension is an update of the empty dict, and `{**a, **b}`
      an update of a copy of a by b. */
  function Update<V>(d: Dict<V>, ps: seq<(string, V)>): (r: Dict<V>)
  {
    if ps == [] then d
    else Insert(Update(d, ps[..|ps| - 1]), ps[|ps| - 1].0, ps[|ps| - 1].1)
  }

  /** The value of the last pair with key k, if any. */
  function LastValue<V>(ps: seq<(string, V)>, k: string): (r: Option<V>)
    ensures r.Some? <==> k in KeysOf(ps)
  {
    if ps == [] then None
    else if ps[|ps| - 1].0 == k then Some(ps[|ps| - 1].1)
    else
      var r := LastValue(ps[..|ps| - 1], k);
      assert KeysOf(ps) == KeysOf(ps[..|ps| - 1]) + [ps[|ps| - 1].0];
      r
  }

  /** After an update, a key holds the value of its last pair when the pairs
      mention it, and its old value otherwise. */
  lemma {:induction false} UpdateLookup<V>(d: Dict<V>, ps: seq<(string, V)>, k: string)
    ensures Lookup(Update(d, ps), k) == if k in KeysOf(ps) then LastValue(ps, k) else Lookup(d, k)
  {
    if ps != [] {
      var n := |ps| - 1;
      var prev := Update(d, ps[..n]);
      UpdateLookup(d, ps[..n], k);
      assert KeysOf(ps) == KeysOf(ps[..n]) + [ps[n].0];
      assert Update(d, ps) == Insert(prev, ps[n].0, ps[n].1);
      assert Lookup(Insert(prev, ps[n].0, ps[n].1), k) == if k == ps[n].0 then Some(ps[n].1) else Lookup(prev, k);
    }
  }

  /** The keys after an update are the old keys and the keys of the pairs. */
  lemma UpdateKeys<V>(d: Dict<V>, ps: seq<(string, V)>, k: string)
    ensures k in KeysOf(Update(d, ps)) <==> k in KeysOf(d) || k in KeysOf(ps)
  {
    UpdateLookup(d, ps, k);
  }

  /** Assigning a key the dict does not hold appends its item. */
  lemma InsertNew<V>(d: Dict<V>, k: string, v: V)
    requires k !in KeysOf(d)
    ensures Insert(d, k, v) == d + [(k, v)]
  {
  }

  /** `{**a}` or `dict(a)`: copying a dict into an empty one gives the same
      items in the same order. */
  lemma {:induction false} CopyIsSame<V>(a: Dict<V>)
    ensures Update([], a) == a
  {
    if a != [] {
      var n := |a| - 1;
      assert KeysOf(a[..n]) == KeysOf(a)[..n];
      var p: Dict<V> := a[..n];
      CopyIsSame(p);
      assert a[n].0 !in KeysOf(p);
      InsertNew(p, a[n].0, a[n].1);
      assert Update([], a) == Insert(Update([], p), a[n].0, a[n].1);
      assert p + [(a[n].0, a[n].1)] == a;
    }
  }

  /** In a dict the last item with a key is its only one. */
  lemma {:induction false} LastValueOfDict<V>(d: Dict<V>, k: string)
    ensures LastValue(d, k) == Lookup(d, k)
  {
    if d != [] {
      var n := |d| - 1;
      var p: seq<(string, V)> := d[..n];
      assert KeysOf(p) == KeysOf(d)[..n];
      LastValueOfDict(p, k);
      if d[n].0 == k {
        LookupAt(d, n);
      } else if k in KeysOf(p) {
        var j := IndexOf(KeysOf(p), k);
        LookupAt(p, j);
        LookupAt(d, j);
      }
    }
  }

  /** The last value a dict's items give for the key at position i is the
      value at position i. */
  lemma LastValueAt<V>(d: Dict<V>, i: nat)
    requires i < |d|
    ensures LastValue(d, d[i].0) == Some(d[i].1)
  {
    LastValueOfDict(d, d[i].0);
    LookupAt(d, i);
  }
}
