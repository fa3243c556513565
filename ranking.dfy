/** Python's `sorted(xs, key=f, reverse=True)`: a stable sort into
    descending key order, and the `[:n]` slice of it that the summaries take. */
module Ranking {

  /** Keys do not increase from left to right. */
  ghost predicate SortedDesc<T>(s: seq<T>, key: T -> real)
  {
    forall i, j :: 0 <= i < j < |s| ==> key(s[i]) >= key(s[j])
  }

  /** The elements of `s` whose key is `v`, in their order in `s`. */
  function WithKey<T>(s: seq<T>, key: T -> real, v: real): seq<T>
    decreases |s|
  {
    if |s| == 0 then []
    else (if key(s[0]) == v then [s[0]] else []) + WithKey(s[1..], key, v)
  }

  /** Puts `x` in front of the first element whose key is not above its own. */
  function Insert<T>(x: T, s: seq<T>, key: T -> real): seq<T>
    decreases |s|
  {
    if |s| == 0 || key(x) >= key(s[0]) then [x] + s
    else [s[0]] + Insert(x, s[1..], key)
  }

  /** Insertion sort; an element goes before the later elements with an equal
      key, so equal keys keep their order. */
  function SortDesc<T>(s: seq<T>, key: T -> real): seq<T>
    decreases |s|
  {
    if |s| == 0 then [] else Insert(s[0], SortDesc(s[1..], key), key)
  }

  lemma {:induction false} InsertMultiset<T>(x: T, s: seq<T>, key: T -> real)
    ensures multiset(Insert(x, s, key)) == multiset(s) + multiset{x}
    decreases |s|
  {
    if |s| > 0 && key(x) < key(s[0]) {
      InsertMultiset(x, s[1..], key);
      assert s == [s[0]] + s[1..];
    }
  }

  lemma {:induction false} InsertSorted<T>(x: T, s: seq<T>, key: T -> real)
    requires SortedDesc(s, key)
    ensures SortedDesc(Insert(x, s, key), key)
    decreases |s|
  {
    if |s| == 0 || key(x) >= key(s[0]) {
      ConsSorted(x, s, key);
    } else {
      var tail := s[1..];
      assert SortedDesc(tail, key) by {
        forall i, j | 0 <= i < j < |tail| ensures key(tail[i]) >= key(tail[j]) {
          assert tail[i] == s[i + 1] && tail[j] == s[j + 1];
        }
      }
      InsertSorted(x, tail, key);
      forall i | 0 <= i < |tail| ensures key(s[0]) >= key(tail[i]) {
        assert tail[i] == s[i + 1];
      }
      InsertBounded(x, tail, key, key(s[0]));
      ConsSorted(s[0], Insert(x, tail, key), key);
    }
  }

  /** A sorted sequence stays sorted with an element in front that is at
      least all of it. */
  lemma ConsSorted<T>(y: T, t: seq<T>, key: T -> real)
    requires SortedDesc(t, key)
    requires forall i :: 0 <= i < |t| ==> key(y) >= key(t[i])
    ensures SortedDesc([y] + t, key)
  {
    var r := [y] + t;
    forall i, j | 0 <= i < j < |r| ensures key(r[i]) >= key(r[j]) {
      assert r[j] == t[j - 1];
      if i > 0 {
        assert r[i] == t[i - 1];
      }
    }
  }

  /** A bound on `x` and on every element of `s` bounds every element of
      `Insert(x, s, key)`. */
  lemma {:induction false} InsertBounded<T>(x: T, s: seq<T>, key: T -> real, v: real)
    requires v >= key(x) && forall i :: 0 <= i < |s| ==> v >= key(s[i])
    ensures forall i :: 0 <= i < |Insert(x, s, key)| ==> v >= key(Insert(x, s, key)[i])
    decreases |s|
  {
    var r := Insert(x, s, key);
    if |s| == 0 || key(x) >= key(s[0]) {
      forall i | 0 <= i < |r| ensures v >= key(r[i]) {
        if i > 0 {
          assert r[i] == s[i - 1];
        }
      }
    } else {
      var tail := s[1..];
      forall i | 0 <= i < |tail| ensures v >= key(tail[i]) {
        assert tail[i] == s[i + 1];
      }
      InsertBounded(x, tail, key, v);
      var it := Insert(x, tail, key);
      forall i | 0 <= i < |r| ensures v >= key(r[i]) {
        if i > 0 {
          assert r[i] == it[i - 1];
        }
      }
    }
  }

  lemma {:induction false} InsertStable<T>(x: T, s: seq<T>, key: T -> real, v: real)
    ensures WithKey(Insert(x, s, key), key, v) == WithKey([x] + s, key, v)
    decreases |s|
  {
    if |s| > 0 && key(x) < key(s[0]) {
      var tail := s[1..];
      InsertStable(x, tail, key, v);
      var it := Insert(x, tail, key);
      assert ([s[0]] + it)[1..] == it;
      assert ([x] + s)[1..] == s;
      assert ([x] + tail)[1..] == tail;
    }
  }

  /** The sort is ordered, a permutation, and stable: for every key value the
      elements with that key appear in their original order. */
  lemma SortDescFacts<T>(s: seq<T>, key: T -> real)
    ensures SortedDesc(SortDesc(s, key), key)
    ensures multiset(SortDesc(s, key)) == multiset(s)
    ensures forall v :: WithKey(SortDesc(s, key), key, v) == WithKey(s, key, v)
  {
    SortDescSorted(s, key);
    SortDescPermutes(s, key);
    forall v ensures WithKey(SortDesc(s, key), key, v) == WithKey(s, key, v) {
      SortDescStable(s, key, v);
    }
  }

  lemma {:induction false} SortDescSorted<T>(s: seq<T>, key: T -> real)
    ensures SortedDesc(SortDesc(s, key), key)
    decreases |s|
  {
    if |s| > 0 {
      SortDescSorted(s[1..], key);
      InsertSorted(s[0], SortDesc(s[1..], key), key);
    }
  }

  lemma {:induction false} SortDescPermutes<T>(s: seq<T>, key: T -> real)
    ensures multiset(SortDesc(s, key)) == multiset(s)
    decreases |s|
  {
    if |s| > 0 {
      var rest := SortDesc(s[1..], key);
      SortDescPermutes(s[1..], key);
      InsertMultiset(s[0], rest, key);
      assert s == [s[0]] + s[1..];
      assert multiset(s) == multiset{s[0]} + multiset(s[1..]);
    }
  }

  lemma {:induction false} SortDescStable<T>(s: seq<T>, key: T -> real, v: real)
    ensures WithKey(SortDesc(s, key), key, v) == WithKey(s, key, v)
    decreases |s|
  {
    if |s| > 0 {
      var rest := SortDesc(s[1..], key);
      SortDescStable(s[1..], key, v);
      InsertStable(s[0], rest, key, v);
      assert ([s[0]] + rest)[1..] == rest;
      assert s == [s[0]] + s[1..];
    }
  }

  function Min(a: nat, b: nat): nat
  {
    if a <= b then a else b
  }

  /** `sorted(s, key=key, reverse=True)[:n]`: at most `n` elements, taken from
      `s`, in descending key order, and none of the elements left out has a
      key above any element taken. */
  function TopN<T(!new)>(s: seq<T>, key: T -> real, n: nat): (r: seq<T>)
    ensures |r| == Min(n, |s|)
    ensures SortedDesc(r, key)
    ensures multiset(r) <= multiset(s)
    ensures forall x :: x in multiset(s) - multiset(r) ==>
              forall i :: 0 <= i < |r| ==> key(r[i]) >= key(x)
  {
    TopNFacts(s, key, n);
    SortDesc(s, key)[..Min(n, |s|)]
  }

  lemma TopNFacts<T(!new)>(s: seq<T>, key: T -> real, n: nat)
    ensures |SortDesc(s, key)| == |s|
    ensures var r := SortDesc(s, key)[..Min(n, |s|)];
      && SortedDesc(r, key)
      && multiset(r) <= multiset(s)
      && forall x :: x in multiset(s) - multiset(r) ==>
           forall i :: 0 <= i < |r| ==> key(r[i]) >= key(x)
  {
    var sorted := SortDesc(s, key);
    SortDescFacts(s, key);
    assert |sorted| == |s| by {
      assert |multiset(sorted)| == |multiset(s)|;
    }
    var m := Min(n, |s|);
    SplitSorted(sorted, key, m);
  }

  /** Cutting a sorted sequence in two: both halves sorted, and every element
      of the front at least every element of the back. */
  lemma SplitSorted<T(!new)>(sorted: seq<T>, key: T -> real, m: nat)
    requires m <= |sorted| && SortedDesc(sorted, key)
    ensures SortedDesc(sorted[..m], key)
    ensures multiset(sorted[..m]) <= multiset(sorted)
    ensures multiset(sorted) - multiset(sorted[..m]) == multiset(sorted[m..])
    ensures forall x :: x in multiset(sorted[m..]) ==>
              forall i :: 0 <= i < m ==> key(sorted[i]) >= key(x)
  {
    var r := sorted[..m];
    var rest := sorted[m..];
    assert sorted == r + rest;
    assert multiset(sorted) == multiset(r) + multiset(rest);
    forall x, i | x in multiset(rest) && 0 <= i < m ensures key(sorted[i]) >= key(x) {
      var j :| 0 <= j < |rest| && rest[j] == x;
      assert rest[j] == sorted[m + j];
    }
  }
}
