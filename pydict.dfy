/** Python's `dict`, with what the modelled code relies on: entries keyed
    uniquely, and iteration in the order keys were first inserted
    (overwriting an entry keeps its place, deleting it removes it). */
module PyDict {

  datatype Dict<K(==,!new), V> = Dict(keys: seq<K>, items: map<K, V>) {

    /** Keys listed once each, and exactly the keys that have entries. */
    ghost predicate Valid()
    {
      && (forall i, j :: 0 <= i < j < |keys| ==> keys[i] != keys[j])
      && (forall k :: k in items <==> k in keys)
    }

    /** `len(d)`: one entry per listed key. */
    lemma Size()
      requires Valid()
      ensures |items| == |keys|
    {
      DistinctCard(keys);
      assert items.Keys == set k | k in keys;
    }

    /** `d[k] = v` */
    function Put(k: K, v: V): (d: Dict<K, V>)
      ensures d.items == items[k := v]
      ensures Valid() ==> d.Valid()
      ensures d.keys == if k in items then keys else keys + [k]
    {
      if k in items then Dict(keys, items[k := v]) else Dict(keys + [k], items[k := v])
    }

    /** `del d[k]` (a no-op here when `k` is absent; callers check first) */
    function Remove(k: K): (d: Dict<K, V>)
      ensures d.items == items - {k}
      ensures Valid() ==> d.Valid()
      ensures d.keys == Without(keys, k)
    {
      Dict(Without(keys, k), items - {k})
    }
  }

  function Empty<K(==,!new), V>(): (d: Dict<K, V>)
    ensures d.Valid() && d.items == map[] && d.keys == []
  {
    Dict([], map[])
  }

  /** A list without repeats has as many members as elements. */
  lemma {:induction false} DistinctCard<K>(s: seq<K>)
    requires forall i, j :: 0 <= i < j < |s| ==> s[i] != s[j]
    ensures |set k | k in s| == |s|
  {
    if |s| > 0 {
      var t := s[..|s| - 1];
      DistinctCard(t);
      assert (set k | k in s) == (set k | k in t) + {s[|s| - 1]};
      assert s[|s| - 1] !in t;
    }
  }

  /** `s` with every occurrence of `k` taken out, the rest in order. */
  function Without<K(==,!new)>(s: seq<K>, k: K): (r: seq<K>)
    ensures k !in r
    ensures forall x :: x in r <==> x in s && x != k
    ensures (forall i, j :: 0 <= i < j < |s| ==> s[i] != s[j]) ==>
              (forall i, j :: 0 <= i < j < |r| ==> r[i] != r[j])
    decreases |s|
  {
    if |s| == 0 then []
    else if s[0] == k then Without(s[1..], k)
    else
      var rest := Without(s[1..], k);
      assert (forall i, j :: 0 <= i < j < |s| ==> s[i] != s[j]) ==> s[0] !in rest by {
        if forall i, j :: 0 <= i < j < |s| ==> s[i] != s[j] {
          forall y | y in s[1..] ensures y != s[0] {
            var j :| 0 <= j < |s[1..]| && s[1..][j] == y;
            assert s[j + 1] == y;
          }
        }
      }
      [s[0]] + rest
  }
  /** Taking out a key that is not there changes nothing. */
  lemma {:induction false} WithoutAbsent<K(!new)>(s: seq<K>, k: K)
    requires k !in s
    ensures Without(s, k) == s
    decreases |s|
  {
    if |s| > 0 {
      WithoutAbsent(s[1..], k);
      assert s == [s[0]] + s[1..];
    }
  }

  /** Taking a key out of two lists joined is taking it out of each. */
  lemma {:induction false} WithoutConcat<K(!new)>(a: seq<K>, b: seq<K>, k: K)
    ensures Without(a + b, k) == Without(a, k) + Without(b, k)
    decreases |a|
  {
    if |a| > 0 {
      WithoutConcat(a[1..], b, k);
      assert (a + b)[1..] == a[1..] + b;
    } else {
      assert a + b == b;
    }
  }

  /** The elements of `s` that are in `keep`, in their order in `s`. */
  function Restricted<K(==,!new)>(s: seq<K>, keep: set<K>): (r: seq<K>)
    ensures forall x :: x in r <==> x in s && x in keep
    decreases |s|
  {
    if |s| == 0 then []
    else
      var last := s[|s| - 1];
      var rest := Restricted(s[..|s| - 1], keep);
      assert forall x :: x in s <==> x in s[..|s| - 1] || x == last by {
        assert s == s[..|s| - 1] + [last];
      }
      if last in keep then rest + [last] else rest
  }
}
