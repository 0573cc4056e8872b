/** An insertion-ordered dictionary, as Python's `dict`: assigning to a key that
    is present keeps its place, a new key goes to the end. */
module PyDict {
  import opened Basics

  type Dict<K, V> = seq<(K, V)>

  ghost predicate Distinct<K, V>(d: Dict<K, V>) {
    forall i, j :: 0 <= i < j < |d| ==> d[i].0 != d[j].0
  }

  function Get<K(==), V>(d: Dict<K, V>, key: K): (r: Option<V>)
    ensures r.None? <==> forall i :: 0 <= i < |d| ==> d[i].0 != key
  {
    if d == [] then None else if d[0].0 == key then Some(d[0].1) else Get(d[1..], key)
  }

  function Put<K(==), V>(d: Dict<K, V>, key: K, value: V): (r: Dict<K, V>)
    ensures forall i :: 0 <= i < |r| ==> r[i].0 == key || exists j :: 0 <= j < |d| && d[j].0 == r[i].0
    ensures Distinct(d) ==> Distinct(r)
  {
    if d == [] then [(key, value)]
    else if d[0].0 == key then [(key, value)] + d[1..]
    else [d[0]] + Put(d[1..], key, value)
  }

  function Pop<K(==), V>(d: Dict<K, V>, key: K): (r: Dict<K, V>)
    ensures forall i :: 0 <= i < |r| ==> exists j :: 0 <= j < |d| && d[j] == r[i]
    ensures Distinct(d) ==> Distinct(r)
  {
    if d == [] then [] else if d[0].0 == key then d[1..] else [d[0]] + Pop(d[1..], key)
  }

  function Values<K, V>(d: Dict<K, V>): (v: seq<V>)
    ensures |v| == |d|
  {
    if d == [] then [] else [d[0].1] + Values(d[1..])
  }

  lemma {:induction false} GetOfPut<K, V>(d: Dict<K, V>, key: K, value: V, k: K)
    ensures Get(Put(d, key, value), k) == if k == key then Some(value) else Get(d, k)
  {
    if d != [] && d[0].0 != key {
      GetOfPut(d[1..], key, value, k);
      assert Put(d, key, value)[1..] == Put(d[1..], key, value);
    }
  }

  lemma {:induction false} GetOfPop<K, V>(d: Dict<K, V>, key: K, k: K)
    requires Distinct(d)
    ensures Get(Pop(d, key), k) == if k == key then None else Get(d, k)
  {
    if d != [] {
      if d[0].0 == key {
        assert forall i :: 0 <= i < |d[1..]| ==> d[1..][i].0 != key;
      } else {
        GetOfPop(d[1..], key, k);
        assert Pop(d, key)[1..] == Pop(d[1..], key);
      }
    }
  }

  lemma {:induction false} PopShortens<K, V>(d: Dict<K, V>, key: K)
    requires Get(d, key).Some?
    ensures |d| == |Pop(d, key)| + 1
  {
    if d[0].0 != key {
      PopShortens(d[1..], key);
    }
  }

  lemma {:induction false} ValuesOfPop<K, V>(d: Dict<K, V>, key: K)
    requires Get(d, key).Some?
    ensures multiset(Values(d)) == multiset(Values(Pop(d, key))) + multiset{Get(d, key).value}
  {
    var first, rest := d[0], d[1..];
    assert multiset(Values(d)) == multiset{first.1} + multiset(Values(rest)) by {
      ValuesOfCons(first, rest);
      assert d == [first] + rest;
    }
    if first.0 != key {
      var popped := Pop(rest, key);
      ValuesOfPop(rest, key);
      ValuesOfCons(first, popped);
      assert multiset(Values(Pop(d, key))) == multiset{first.1} + multiset(Values(popped));
    }
  }

  lemma ValuesOfCons<K, V>(entry: (K, V), d: Dict<K, V>)
    ensures multiset(Values([entry] + d)) == multiset{entry.1} + multiset(Values(d))
  {
    assert ([entry] + d)[1..] == d;
  }

  /** What is left of a dictionary without its first entry. */
  lemma TailOf<K(!new), V>(d: Dict<K, V>)
    requires Distinct(d) && d != []
    ensures Distinct(d[1..])
    ensures forall k :: Get(d[1..], k) == if k == d[0].0 then None else Get(d, k)
  {
    assert Get(d[1..], d[0].0).None? by {
      assert forall i :: 0 <= i < |d[1..]| ==> d[1..][i].0 == d[i + 1].0;
    }
  }

  /** `v` is under some key. */
  ghost predicate Holds<K(!new), V>(d: Dict<K, V>, v: V) {
    exists k :: Get(d, k) == Some(v)
  }

  /** The values are what is under the keys. */
  lemma {:induction false} ValuesAreHeld<K(!new), V>(d: Dict<K, V>, v: V)
    requires Distinct(d)
    ensures v in Values(d) <==> Holds(d, v)
  {
    if d == [] {
      forall k: K ensures Get(d, k) != Some(v) {
      }
    } else {
      TailOf(d);
      ValuesAreHeld(d[1..], v);
      assert Get(d, d[0].0) == Some(d[0].1);
      if Holds(d[1..], v) {
        var k :| Get(d[1..], k) == Some(v);
        assert Get(d, k) == Some(v);
      }
      if Holds(d, v) {
        var k :| Get(d, k) == Some(v);
        assert k != d[0].0 ==> Get(d[1..], k) == Some(v);
      }
    }
  }

  /** `b` answers every key `a` answers, alike. */
  ghost predicate Includes<K(!new), V>(b: Dict<K, V>, a: Dict<K, V>) {
    forall k :: Get(a, k).Some? ==> Get(b, k) == Get(a, k)
  }

  lemma {:induction false} IncludedValues<K(!new), V>(a: Dict<K, V>, b: Dict<K, V>)
    requires Distinct(a) && Distinct(b) && Includes(b, a)
    ensures |a| <= |b|
    ensures |a| == |b| ==> multiset(Values(a)) == multiset(Values(b)) && Includes(a, b)
  {
    if a == [] {
      assert |b| == 0 ==> b == [];
    } else {
      var first := a[0];
      var rest := Pop(b, first.0);
      assert Get(b, first.0) == Some(first.1);
      TailOf(a);
      forall k ensures Get(rest, k) == if k == first.0 then None else Get(b, k) {
        GetOfPop(b, first.0, k);
      }
      IncludedValues(a[1..], rest);
      PopShortens(b, first.0);
      assert multiset(Values(a)) == multiset{first.1} + multiset(Values(a[1..])) by {
        ValuesOfCons(first, a[1..]);
        assert a == [first] + a[1..];
      }
      ValuesOfPop(b, first.0);
    }
  }

  /** A dictionary included in another has the same values exactly when it
      answers every key the other answers. */
  lemma SameValuesIff<K(!new), V>(a: Dict<K, V>, b: Dict<K, V>)
    requires Distinct(a) && Distinct(b) && Includes(b, a)
    ensures multiset(Values(a)) == multiset(Values(b)) <==> Includes(a, b)
  {
    IncludedValues(a, b);
    if Includes(a, b) {
      IncludedValues(b, a);
    }
    assert |multiset(Values(a))| == |a| && |multiset(Values(b))| == |b|;
  }
}
