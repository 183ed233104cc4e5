/** `Array.prototype.sort` with a numeric comparator `(a, b) => key(a) - key(b)`.
    The functional `SortBy` is the specification (a stable insertion sort, as
    the language guarantees stability); `SortInPlace` is the in-place sort the
    source runs on its reusable number buffers. */
module Sorting {

  predicate SortedBy<T>(s: seq<T>, key: T -> real)
  {
    forall i, j :: 0 <= i < j < |s| ==> key(s[i]) <= key(s[j])
  }

  /** The identity key, for sorting plain numbers. */
  function Id(x: real): real { x }

  predicate Sorted(s: seq<real>)
  {
    forall i, j :: 0 <= i < j < |s| ==> s[i] <= s[j]
  }

  lemma SortedByIdIsSorted(s: seq<real>)
    ensures SortedBy(s, Id) <==> Sorted(s)
  {
    assert forall i :: 0 <= i < |s| ==> Id(s[i]) == s[i];
  }

  /** Inserts `x` after every element whose key is not greater than its own. */
  function InsertBy<T>(x: T, s: seq<T>, key: T -> real): (r: seq<T>)
    requires SortedBy(s, key)
    ensures SortedBy(r, key)
    ensures multiset(r) == multiset(s) + multiset{x}
    ensures |r| == |s| + 1
    ensures r[0] == x || (s != [] && r[0] == s[0])
    decreases |s|
  {
    if s == [] then [x]
    else if key(x) < key(s[0]) then [x] + s
    else
      var rest := InsertBy(x, s[1..], key);
      ConsSorted(s[0], rest, key);
      assert s == [s[0]] + s[1..];
      assert multiset([s[0]] + rest) == multiset{s[0]} + multiset(rest);
      [s[0]] + rest
  }

  lemma ConsSorted<T>(a: T, rest: seq<T>, key: T -> real)
    requires SortedBy(rest, key) && rest != [] && key(a) <= key(rest[0])
    ensures SortedBy([a] + rest, key)
  {
    assert forall j :: 0 <= j < |rest| ==> key(rest[0]) <= key(rest[j]);
  }

  /** The sort by `key`: ordered and a permutation here, stable by
      `SortByStable`. */
  function SortBy<T>(s: seq<T>, key: T -> real): (r: seq<T>)
    ensures SortedBy(r, key)
    ensures multiset(r) == multiset(s)
    ensures |r| == |s|
    decreases |s|
  {
    if s == [] then []
    else
      assert s == s[..|s| - 1] + [s[|s| - 1]];
      var r := InsertBy(s[|s| - 1], SortBy(s[..|s| - 1], key), key);
      assert |r| == |multiset(r)| == |multiset(s)| == |s|;
      r
  }

  /** The elements of `s` whose key is `k`, in their order in `s`. */
  function WithKey<T>(s: seq<T>, key: T -> real, k: real): seq<T>
    decreases |s|
  {
    if s == [] then []
    else (if key(s[0]) == k then [s[0]] else []) + WithKey(s[1..], key, k)
  }

  lemma {:induction false} WithKeyAppend<T>(a: seq<T>, b: seq<T>, key: T -> real, k: real)
    ensures WithKey(a + b, key, k) == WithKey(a, key, k) + WithKey(b, key, k)
    decreases |a|
  {
    if a == [] {
      assert a + b == b;
    } else {
      WithKeyAppend(a[1..], b, key, k);
      assert a + b == [a[0]] + (a[1..] + b);
      assert a == [a[0]] + a[1..];
      WithKeyCons(a[0], a[1..] + b, key, k);
      WithKeyCons(a[0], a[1..], key, k);
      var p, q, u := KeyPart(a[0], key, k), WithKey(a[1..], key, k), WithKey(b, key, k);
      assert p + (q + u) == (p + q) + u;
    }
  }

  /** A sorted sequence whose first key is above `k` has no element with key `k`. */
  lemma {:induction false} WithKeyAbove<T>(s: seq<T>, key: T -> real, k: real)
    requires SortedBy(s, key) && s != [] && k < key(s[0])
    ensures WithKey(s, key, k) == []
    decreases |s|
  {
    if |s| > 1 {
      assert key(s[0]) <= key(s[1]);
      WithKeyAbove(s[1..], key, k);
    }
  }

  /** The elements of key `k` in `[x]`. */
  function KeyPart<T>(x: T, key: T -> real, k: real): seq<T>
  {
    if key(x) == k then [x] else []
  }

  lemma WithKeyCons<T>(x: T, s: seq<T>, key: T -> real, k: real)
    ensures WithKey([x] + s, key, k) == KeyPart(x, key, k) + WithKey(s, key, k)
  {
    var r := [x] + s;
    assert r[0] == x && r[1..] == s;
  }

  /** `x` below the first key of `s` goes first, ahead of an empty run of its key. */
  lemma InsertByWithKeyFront<T>(x: T, s: seq<T>, key: T -> real, k: real)
    requires SortedBy(s, key) && s != [] && key(x) < key(s[0])
    ensures WithKey(InsertBy(x, s, key), key, k) == WithKey(s, key, k) + KeyPart(x, key, k)
  {
    assert InsertBy(x, s, key) == [x] + s;
    WithKeyCons(x, s, key, k);
    if key(x) == k {
      WithKeyAbove(s, key, k);
    }
  }

  /** `x` not below the first key of `s` goes after it. */
  lemma InsertByWithKeyLater<T>(x: T, s: seq<T>, key: T -> real, k: real)
    requires SortedBy(s, key) && s != [] && key(x) >= key(s[0])
    requires WithKey(InsertBy(x, s[1..], key), key, k) == WithKey(s[1..], key, k) + KeyPart(x, key, k)
    ensures WithKey(InsertBy(x, s, key), key, k) == WithKey(s, key, k) + KeyPart(x, key, k)
  {
    InsertByUnfold(x, s, key);
    WithKeyConsStep(s[0], InsertBy(x, s[1..], key), s[1..], x, key, k);
    assert s == [s[0]] + s[1..];
  }

  /** Putting one element in front of both sides keeps a trailing `x` run. */
  lemma WithKeyConsStep<T>(a: T, rest: seq<T>, t: seq<T>, x: T, key: T -> real, k: real)
    requires WithKey(rest, key, k) == WithKey(t, key, k) + KeyPart(x, key, k)
    ensures WithKey([a] + rest, key, k) == WithKey([a] + t, key, k) + KeyPart(x, key, k)
  {
    WithKeyCons(a, rest, key, k);
    WithKeyCons(a, t, key, k);
    var p, q, u := KeyPart(a, key, k), WithKey(t, key, k), KeyPart(x, key, k);
    assert p + (q + u) == (p + q) + u;
  }

  /** The insertion step that passes over the first element. */
  lemma InsertByUnfold<T>(x: T, s: seq<T>, key: T -> real)
    requires SortedBy(s, key) && s != [] && key(x) >= key(s[0])
    ensures SortedBy(s[1..], key)
    ensures InsertBy(x, s, key) == [s[0]] + InsertBy(x, s[1..], key)
  {
  }

  /** `InsertBy` puts `x` after every element with the same key. */
  lemma {:induction false} InsertByWithKey<T>(x: T, s: seq<T>, key: T -> real, k: real)
    requires SortedBy(s, key)
    ensures WithKey(InsertBy(x, s, key), key, k) == WithKey(s, key, k) + KeyPart(x, key, k)
    decreases |s|
  {
    if s == [] {
      assert InsertBy(x, s, key) == [x] + s;
      WithKeyCons(x, s, key, k);
    } else if key(x) < key(s[0]) {
      InsertByWithKeyFront(x, s, key, k);
    } else {
      SortedTail(s, key);
      InsertByWithKey(x, s[1..], key, k);
      InsertByWithKeyLater(x, s, key, k);
    }
  }

  lemma SortedTail<T>(s: seq<T>, key: T -> real)
    requires SortedBy(s, key) && s != []
    ensures SortedBy(s[1..], key)
  {
  }

  /** The sort is stable: the elements of any one key keep their order. */
  lemma {:induction false} SortByStable<T>(s: seq<T>, key: T -> real, k: real)
    ensures WithKey(SortBy(s, key), key, k) == WithKey(s, key, k)
    decreases |s|
  {
    if s != [] {
      var init, last := s[..|s| - 1], s[|s| - 1];
      var sorted := SortBy(init, key);
      SortByUnfold(s, key);
      SortByStable(init, key, k);
      InsertByWithKey(last, sorted, key, k);
      WithKeyLast(s, key, k);
    }
  }

  /** The sort inserts the last element into the sorted rest. */
  lemma SortByUnfold<T>(s: seq<T>, key: T -> real)
    requires s != []
    ensures SortBy(s, key) == InsertBy(s[|s| - 1], SortBy(s[..|s| - 1], key), key)
  {
  }

  lemma WithKeyLast<T>(s: seq<T>, key: T -> real, k: real)
    requires s != []
    ensures WithKey(s, key, k) == WithKey(s[..|s| - 1], key, k) + KeyPart(s[|s| - 1], key, k)
  {
    var init, last := s[..|s| - 1], s[|s| - 1];
    WithKeyAppend(init, [last], key, k);
    WithKeyCons(last, [], key, k);
    assert [last] + [] == [last];
    assert s == init + [last];
  }

  /** A sequence already in key order is left as it is. */
  lemma {:induction false} SortByOfSorted<T>(s: seq<T>, key: T -> real)
    requires SortedBy(s, key)
    ensures SortBy(s, key) == s
    decreases |s|
  {
    if s != [] {
      var init := s[..|s| - 1];
      var last := s[|s| - 1];
      assert SortedBy(init, key);
      SortByOfSorted(init, key);
      InsertByLast(last, init, key);
    }
  }

  /** An element whose key is not below any key of `s` goes last. */
  lemma {:induction false} InsertByLast<T>(x: T, s: seq<T>, key: T -> real)
    requires SortedBy(s, key)
    requires forall i :: 0 <= i < |s| ==> key(s[i]) <= key(x)
    ensures InsertBy(x, s, key) == s + [x]
    decreases |s|
  {
    if s != [] {
      assert SortedBy(s[1..], key);
      InsertByLast(x, s[1..], key);
      assert s == [s[0]] + s[1..];
    }
  }

  /** `[...xs].sort((a, b) => a - b)`. */
  function SortReals(xs: seq<real>): (r: seq<real>)
    ensures Sorted(r) && multiset(r) == multiset(xs) && |r| == |xs|
  {
    var r := SortBy(xs, Id);
    SortedByIdIsSorted(r);
    r
  }

  lemma TailMultiset(a: seq<real>)
    requires a != []
    ensures multiset(a[1..]) == multiset(a) - multiset{a[0]}
  {
    assert a == [a[0]] + a[1..];
  }

  /** Two sorted arrangements of one multiset start with the same element. */
  lemma SameHead(a: seq<real>, b: seq<real>)
    requires Sorted(a) && Sorted(b) && a != [] && multiset(a) == multiset(b)
    ensures b != [] && a[0] == b[0]
  {
    assert a[0] in multiset(b);
    assert b != [];
    assert b[0] in multiset(a);
    var i :| 0 <= i < |a| && a[i] == b[0];
    var j :| 0 <= j < |b| && b[j] == a[0];
    assert a[0] <= a[i] && b[0] <= b[j];
  }

  /** A sorted arrangement of a multiset of numbers is unique. */
  lemma {:induction false} SortedUnique(a: seq<real>, b: seq<real>)
    requires Sorted(a) && Sorted(b) && multiset(a) == multiset(b)
    ensures a == b
    decreases |a|
  {
    if a == [] {
      assert |b| == |multiset(b)| == 0;
    } else {
      SameHead(a, b);
      TailMultiset(a);
      TailMultiset(b);
      SortedUnique(a[1..], b[1..]);
      assert a == [a[0]] + a[1..] && b == [b[0]] + b[1..];
    }
  }

  /** Sorting a sequence that is already sorted changes nothing. */
  lemma SortRealsOfSorted(xs: seq<real>)
    requires Sorted(xs)
    ensures SortReals(xs) == xs
  {
    SortedUnique(SortReals(xs), xs);
  }

  /** Exchanges two elements of the buffer. */
  method Swap(a: array<real>, i: int, j: int)
    requires 0 <= i < j < a.Length
    modifies a
    ensures a[i] == old(a[j]) && a[j] == old(a[i])
    ensures forall m :: 0 <= m < a.Length && m != i && m != j ==> a[m] == old(a[m])
    ensures multiset(a[..]) == multiset(old(a[..]))
  {
    a[i], a[j] := a[j], a[i];
  }

  /** One insertion step: moves `a[i]` left into the sorted prefix `a[..i]`. */
  method Sink(a: array<real>, i: int)
    requires 0 <= i < a.Length
    requires Sorted(a[..i])
    modifies a
    ensures Sorted(a[..i + 1])
    ensures forall m :: i < m < a.Length ==> a[m] == old(a[m])
    ensures multiset(a[..]) == multiset(old(a[..]))
  {
    var j := i;
    while j > 0 && a[j - 1] > a[j]
      invariant 0 <= j <= i
      invariant forall p, q :: 0 <= p < q <= i && p != j && q != j ==> a[p] <= a[q]
      invariant forall p, q :: 0 <= p < j < q <= i ==> a[p] <= a[q]
      invariant forall q :: j < q <= i ==> a[j] <= a[q]
      invariant forall m :: i < m < a.Length ==> a[m] == old(a[m])
      invariant multiset(a[..]) == multiset(old(a[..]))
    {
      Swap(a, j - 1, j);
      j := j - 1;
    }
  }

  /** `a.sort((x, y) => x - y)` in place, as an insertion sort. */
  method SortInPlace(a: array<real>)
    modifies a
    ensures Sorted(a[..]) && multiset(a[..]) == multiset(old(a[..]))
    ensures a[..] == SortReals(old(a[..]))
  {
    var i := 0;
    while i < a.Length
      invariant 0 <= i <= a.Length
      invariant Sorted(a[..i])
      invariant multiset(a[..]) == multiset(old(a[..]))
    {
      Sink(a, i);
      i := i + 1;
    }
    assert a[..] == a[..a.Length];
    SortedUnique(a[..], SortReals(old(a[..])));
  }
}
