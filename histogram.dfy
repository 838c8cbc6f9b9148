/**
 * Go's `m[k]++` on a `map[K]int` that starts empty, and the sum of such a map's values.
 * `Count(s)` is the map a loop builds by bumping the entry of every element of `s` in turn.
 */
module Histogram {
  /** A loop over all of `s` has seen the prefix `s[..|s|]`, which is `s` itself. */
  lemma WholePrefix<T>(s: seq<T>)
    ensures s[..|s|] == s
  {
  }

  /** `m[k]++`, where an absent key reads as 0. */
  function Bump<K>(m: map<K, nat>, k: K): map<K, nat>
  {
    m[k := if k in m then m[k] + 1 else 1]
  }

  /** `m[k]` in Go: the value, or 0 when the key is absent. */
  function Get<K>(m: map<K, nat>, k: K): nat
  {
    if k in m then m[k] else 0
  }

  /** How many times each element occurs in `s`. */
  function Count<K>(s: seq<K>): map<K, nat>
  {
    if s == [] then map[] else Bump(Count(s[..|s| - 1]), s[|s| - 1])
  }

  /** Exactly the elements of `s` are keys, and each is mapped to its multiplicity. */
  lemma {:induction false} CountIsMultiplicity<K>(s: seq<K>)
    ensures Count(s).Keys == set x | x in s
    ensures forall k | k in Count(s) :: Count(s)[k] == multiset(s)[k]
  {
    if s != [] {
      var init := s[..|s| - 1];
      CountIsMultiplicity(init);
      assert s == init + [s[|s| - 1]];
    }
  }

  /** The keys of the tally are exactly the elements. */
  lemma {:induction false} CountKeys<K>(s: seq<K>)
    ensures forall x :: x in Count(s) <==> x in s
  {
    if s != [] {
      CountKeys(s[..|s| - 1]);
      assert s == s[..|s| - 1] + [s[|s| - 1]];
    }
  }

  /** A key whose count no other key exceeds is an element that occurs at least as often as any value. */
  lemma MaxCountIsMostFrequent<K>(s: seq<K>, k: K)
    requires k in Count(s)
    requires forall j | j in Count(s) :: Count(s)[j] <= Count(s)[k]
    ensures k in s
    ensures forall j :: multiset(s)[j] <= multiset(s)[k]
  {
    CountKeys(s);
    CountIsMultiplicity(s);
    forall j ensures multiset(s)[j] <= multiset(s)[k] {
      if j !in s {
        assert multiset(s)[j] == 0;
      }
    }
  }

  lemma CountSnoc<K>(s: seq<K>, x: K)
    ensures Count(s + [x]) == Bump(Count(s), x)
  {
    assert (s + [x])[..|s|] == s;
  }

  lemma CountPositive<K>(s: seq<K>, k: K)
    requires k in Count(s)
    ensures Count(s)[k] >= 1
  {
    CountIsMultiplicity(s);
    assert k in s;
  }

  /** The sum of the values of `m`. */
  ghost function Sum<K>(m: map<K, nat>): nat
    decreases m.Keys
  {
    if m.Keys == {} then 0
    else
      var k :| k in m.Keys;
      m[k] + Sum(m - {k})
  }

  /** Any key may be taken out first: the sum does not depend on the order of the keys. */
  lemma {:induction false} SumRemove<K>(m: map<K, nat>, k: K)
    requires k in m
    ensures Sum(m) == m[k] + Sum(m - {k})
    decreases m.Keys
  {
    var k' :| k' in m.Keys && Sum(m) == m[k'] + Sum(m - {k'});
    if k' != k {
      SumRemove(m - {k'}, k);
      SumRemove(m - {k}, k');
      assert (m - {k'}) - {k} == (m - {k}) - {k'};
    }
  }

  lemma SumEmpty<K>(m: map<K, nat>)
    requires m.Keys == {}
    ensures Sum(m) == 0
  {
  }

  /** Bumping one entry adds one to the sum. */
  lemma {:induction false} SumBump<K>(m: map<K, nat>, k: K)
    ensures Sum(Bump(m, k)) == Sum(m) + 1
  {
    var b := Bump(m, k);
    SumRemove(b, k);
    if k in m {
      SumRemove(m, k);
      assert b - {k} == m - {k};
    } else {
      assert b - {k} == m;
    }
  }

  /** Storing `v` under a key that is not yet present adds `v` to the sum. */
  lemma {:induction false} SumInsertNew<K>(m: map<K, nat>, k: K, v: nat)
    requires k !in m
    ensures Sum(m[k := v]) == Sum(m) + v
  {
    SumRemove(m[k := v], k);
    assert m[k := v] - {k} == m;
  }

  /** The counts of a sequence's elements add up to its length. */
  lemma {:induction false} SumCount<K>(s: seq<K>)
    ensures Sum(Count(s)) == |s|
  {
    if s == [] {
      SumEmpty(Count(s));
    } else {
      var init := s[..|s| - 1];
      SumCount(init);
      SumBump(Count(init), s[|s| - 1]);
    }
  }
}
