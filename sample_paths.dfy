/** `samplePaths`: choosing the paths a spaghetti chart draws. The optional
    highlight goes first; the others are a partial Fisher–Yates shuffle of an
    index pool that leaves out the first path equal to the highlight.

    The generator is passed in as `u`: `u(k)` is the value the `k`-th call of
    `rng()` returns, which is the draw of shuffle step `k`. The highlight
    counts towards `sampleSize`: with a highlight at most `sampleSize - 1`
    other paths are taken. */
module SamplePaths {
  import Js
  import Reals

  /** `paths.findIndex(...)` for an element-wise equal path, searching from `from`; -1 when none. */
  function FindFrom(paths: seq<seq<real>>, h: seq<real>, from: nat): (i: int)
    requires from <= |paths|
    ensures i == -1 || from <= i < |paths|
    decreases |paths| - from
  {
    if from == |paths| then -1
    else if paths[from] == h then from
    else FindFrom(paths, h, from + 1)
  }

  /** The search finds the first equal path, and -1 only when there is none. */
  lemma {:induction false} FindFromIsFirst(paths: seq<seq<real>>, h: seq<real>, from: nat)
    requires from <= |paths|
    ensures var i := FindFrom(paths, h, from);
            (i >= 0 ==> paths[i] == h && forall j :: from <= j < i ==> paths[j] != h) &&
            (i == -1 ==> forall j :: from <= j < |paths| ==> paths[j] != h)
    decreases |paths| - from
  {
    if from < |paths| && paths[from] != h {
      FindFromIsFirst(paths, h, from + 1);
    }
  }

  /** `excludeIdx`: the index of the first path equal to the highlight, or -1. */
  function ExcludeIndex(paths: seq<seq<real>>, highlight: Js.Option<seq<real>>): (i: int)
    ensures i == -1 || 0 <= i < |paths|
  {
    match highlight
    case None => -1
    case Some(h) => FindFrom(paths, h, 0)
  }

  /** The indices below `n` other than `exclude`, in increasing order. */
  function PoolOf(n: nat, exclude: int): (pool: seq<nat>)
    ensures |pool| == if 0 <= exclude < n then n - 1 else n
    ensures forall j :: 0 <= j < |pool| ==> pool[j] < n && pool[j] != exclude
  {
    if n == 0 then []
    else PoolOf(n - 1, exclude) + if n - 1 != exclude then [n - 1] else []
  }

  /** Every index below `n` except `exclude` is in the pool. */
  lemma {:induction false} PoolHasAllOthers(n: nat, exclude: int, x: nat)
    requires x < n && x != exclude
    ensures x in PoolOf(n, exclude)
  {
    if x < n - 1 {
      PoolHasAllOthers(n - 1, exclude, x);
    }
  }

  predicate Distinct(s: seq<nat>)
  {
    forall i, j :: 0 <= i < j < |s| ==> s[i] != s[j]
  }

  lemma DistinctPrefix(s: seq<nat>, t: nat)
    requires Distinct(s) && t <= |s|
    ensures Distinct(s[..t])
  {
    assert forall k :: 0 <= k < t ==> s[..t][k] == s[k];
  }

  /** A pool holds each index once. */
  lemma {:induction false} PoolIsDistinct(n: nat, exclude: int)
    ensures Distinct(PoolOf(n, exclude))
  {
    if n > 0 {
      PoolIsDistinct(n - 1, exclude);
    }
  }

  /** The pool loop: `for (i ...) if (i !== excludeIdx) pool.push(i)`. */
  method BuildPool(n: nat, exclude: int) returns (pool: seq<nat>)
    ensures pool == PoolOf(n, exclude)
  {
    pool := [];
    var i := 0;
    while i < n
      invariant 0 <= i <= n
      invariant pool == PoolOf(i, exclude)
    {
      if i != exclude {
        pool := pool + [i];
      }
      i := i + 1;
    }
  }

  /** `k + Math.floor(r * (length - k))` */
  function Pick(r: real, length: nat, k: nat): int
  {
    k + Js.Floor(r * (length - k) as real)
  }

  /** A draw in [0, 1) picks an index in [k, length). */
  lemma PickInRange(r: real, length: nat, k: nat)
    requires 0.0 <= r < 1.0 && k < length
    ensures k <= Pick(r, length, k) < length
  {
    var m := (length - k) as real;
    Reals.FractionBelow(r, m);
    var f := Js.Floor(r * m);
    assert 0 <= f < length - k;
  }

  /** `[pool[i], pool[j]] = [pool[j], pool[i]]` on a sequence. */
  function Swapped(s: seq<nat>, i: nat, j: nat): (r: seq<nat>)
    requires i < |s| && j < |s|
    ensures |r| == |s| && multiset(r) == multiset(s)
  {
    s[i := s[j]][j := s[i]]
  }

  /** The draws of a generator that stays in [0, 1). */
  ghost predicate UnitDraws(u: nat -> real)
  {
    forall k: nat :: 0.0 <= u(k) < 1.0
  }

  /** The swap loop from step `k` to step `need`. */
  function Shuffled(s: seq<nat>, u: nat -> real, k: nat, need: nat): seq<nat>
    requires k <= need <= |s| && UnitDraws(u)
    decreases need - k
  {
    if k == need then s
    else
      PickInRange(u(k), |s|, k);
      Shuffled(Swapped(s, k, Pick(u(k), |s|, k)), u, k + 1, need)
  }

  /** The swap loop only rearranges the pool. */
  lemma {:induction false} ShuffledIsPermutation(s: seq<nat>, u: nat -> real, k: nat, need: nat)
    requires k <= need <= |s| && UnitDraws(u)
    ensures |Shuffled(s, u, k, need)| == |s|
    ensures multiset(Shuffled(s, u, k, need)) == multiset(s)
    decreases need - k
  {
    if k < need {
      PickInRange(u(k), |s|, k);
      ShuffledIsPermutation(Swapped(s, k, Pick(u(k), |s|, k)), u, k + 1, need);
    }
  }

  /** A swap keeps distinct indices distinct. */
  lemma SwappedIsDistinct(s: seq<nat>, i: nat, j: nat)
    requires i < |s| && j < |s| && Distinct(s)
    ensures Distinct(Swapped(s, i, j))
  {
    var r := Swapped(s, i, j);
    forall p, q | 0 <= p < q < |r|
      ensures r[p] != r[q]
    {
      var p' := if p == i then j else if p == j then i else p;
      var q' := if q == i then j else if q == j then i else q;
      assert r[p] == s[p'] && r[q] == s[q'] && p' != q';
    }
  }

  /** The swap loop keeps the pool's indices distinct. */
  lemma {:induction false} ShuffledIsDistinct(s: seq<nat>, u: nat -> real, k: nat, need: nat)
    requires k <= need <= |s| && UnitDraws(u) && Distinct(s)
    ensures Distinct(Shuffled(s, u, k, need))
    decreases need - k
  {
    if k < need {
      PickInRange(u(k), |s|, k);
      SwappedIsDistinct(s, k, Pick(u(k), |s|, k));
      ShuffledIsDistinct(Swapped(s, k, Pick(u(k), |s|, k)), u, k + 1, need);
    }
  }

  /** `need`: the requested number of other paths, capped by the pool. */
  function Need(sampleSize: int, hasHighlight: bool, poolLength: nat): (need: int)
    ensures need <= poolLength && need <= (if hasHighlight then sampleSize - 1 else sampleSize)
    ensures need == poolLength || need == (if hasHighlight then sampleSize - 1 else sampleSize)
  {
    var want := if hasHighlight then sampleSize - 1 else sampleSize;
    if want < poolLength then want else poolLength
  }

  /** How often the `k < need` loops run. */
  function Taken(sampleSize: int, hasHighlight: bool, poolLength: nat): (t: nat)
    ensures t <= poolLength
  {
    var need := Need(sampleSize, hasHighlight, poolLength);
    if need < 0 then 0 else need
  }

  /** The pool of a call, before shuffling. */
  function Pool(paths: seq<seq<real>>, highlight: Js.Option<seq<real>>): seq<nat>
  {
    PoolOf(|paths|, ExcludeIndex(paths, highlight))
  }

  /** A rearrangement of indices below `n` other than `e` has only such indices. */
  lemma PermutationBounded(a: seq<nat>, b: seq<nat>, n: nat, e: int)
    requires multiset(a) == multiset(b)
    requires forall i :: 0 <= i < |a| ==> a[i] < n && a[i] != e
    ensures forall i :: 0 <= i < |b| ==> b[i] < n && b[i] != e
  {
    forall i | 0 <= i < |b|
      ensures b[i] < n && b[i] != e
    {
      assert b[i] in multiset(a);
    }
  }

  /** The indices of the paths a shuffling call takes, in order: distinct
      pool members, so no path is drawn twice and the highlight's match is
      never drawn. */
  function Picked(paths: seq<seq<real>>, sampleSize: int, highlight: Js.Option<seq<real>>, u: nat -> real): (picked: seq<nat>)
    requires UnitDraws(u)
    ensures |picked| == Taken(sampleSize, highlight.Some?, |Pool(paths, highlight)|)
    ensures forall k :: 0 <= k < |picked| ==> picked[k] < |paths| && picked[k] != ExcludeIndex(paths, highlight)
    ensures Distinct(picked)
  {
    var pool := Pool(paths, highlight);
    var t := Taken(sampleSize, highlight.Some?, |pool|);
    ShuffledIsPermutation(pool, u, 0, t);
    PoolIsDistinct(|paths|, ExcludeIndex(paths, highlight));
    ShuffledIsDistinct(pool, u, 0, t);
    DistinctPrefix(Shuffled(pool, u, 0, t), t);
    PermutationBounded(pool, Shuffled(pool, u, 0, t), |paths|, ExcludeIndex(paths, highlight));
    Shuffled(pool, u, 0, t)[..t]
  }

  /** Whether the call returns a copy of the input without shuffling. */
  predicate CopiesAll(paths: seq<seq<real>>, sampleSize: int, highlight: Js.Option<seq<real>>)
  {
    |paths| <= sampleSize && highlight.None?
  }

  /** `[highlight]`, or nothing without one. */
  function Front(highlight: Js.Option<seq<real>>): seq<seq<real>>
  {
    if highlight.Some? then [highlight.value] else []
  }

  /** The paths at the given indices, in order. */
  function Gather(paths: seq<seq<real>>, idx: seq<nat>): (r: seq<seq<real>>)
    requires forall k :: 0 <= k < |idx| ==> idx[k] < |paths|
    ensures |r| == |idx|
  {
    seq(|idx|, k requires 0 <= k < |idx| => paths[idx[k]])
  }

  /** What `samplePaths(paths, sampleSize, { highlight, rng })` returns. */
  function Sample(paths: seq<seq<real>>, sampleSize: int, highlight: Js.Option<seq<real>>, u: nat -> real): seq<seq<real>>
    requires UnitDraws(u)
  {
    if paths == [] then []
    else if CopiesAll(paths, sampleSize, highlight) then paths
    else Front(highlight) + Gather(paths, Picked(paths, sampleSize, highlight, u))
  }

  /** One step of the swap loop. */
  lemma ShuffledStep(s: seq<nat>, u: nat -> real, k: nat, need: nat)
    requires k < need <= |s| && UnitDraws(u)
    ensures k <= Pick(u(k), |s|, k) < |s|
    ensures Shuffled(s, u, k, need) == Shuffled(Swapped(s, k, Pick(u(k), |s|, k)), u, k + 1, need)
  {
    PickInRange(u(k), |s|, k);
  }

  /** The swap loop on the pool array. */
  method ShuffleInPlace(pool: array<nat>, need: nat, u: nat -> real)
    requires need <= pool.Length && UnitDraws(u)
    modifies pool
    ensures pool[..] == Shuffled(old(pool[..]), u, 0, need)
  {
    var k := 0;
    while k < need
      invariant 0 <= k <= need
      invariant Shuffled(pool[..], u, k, need) == Shuffled(old(pool[..]), u, 0, need)
    {
      ShuffledStep(pool[..], u, k, need);
      var pick := Pick(u(k), pool.Length, k);
      ghost var before := pool[..];
      pool[k], pool[pick] := pool[pick], pool[k];
      assert pool[..] == Swapped(before, k, pick);
      k := k + 1;
    }
  }

  /** The last loop: `for (k ...) result.push(paths[pool[k]])`. */
  method PushPicked(paths: seq<seq<real>>, front: seq<seq<real>>, pool: seq<nat>, need: int)
    returns (result: seq<seq<real>>)
    requires need <= |pool| && forall k :: 0 <= k < |pool| ==> pool[k] < |paths|
    ensures result == front + Gather(paths, pool[..if need < 0 then 0 else need])
  {
    result := front;
    var k := 0;
    while k < need
      invariant 0 <= k <= if need < 0 then 0 else need
      invariant result == front + Gather(paths, pool[..k])
    {
      assert Gather(paths, pool[..k + 1]) == Gather(paths, pool[..k]) + [paths[pool[k]]];
      result := result + [paths[pool[k]]];
      k := k + 1;
    }
  }

  /** `excludeIdx` and the pool loop, into a fresh array. */
  method MakePool(paths: seq<seq<real>>, highlight: Js.Option<seq<real>>) returns (pool: array<nat>)
    ensures fresh(pool) && pool[..] == Pool(paths, highlight)
  {
    var excludeIdx := -1;
    if highlight.Some? {
      excludeIdx := FindFrom(paths, highlight.value, 0);
    }
    var poolSeq := BuildPool(|paths|, excludeIdx);
    pool := new nat[|poolSeq|](i requires 0 <= i < |poolSeq| => poolSeq[i]);
    assert pool[..] == poolSeq;
  }

  /** `samplePaths(paths, sampleSize, { highlight, rng })` */
  method SamplePaths(paths: seq<seq<real>>, sampleSize: int, highlight: Js.Option<seq<real>>, u: nat -> real)
    returns (result: seq<seq<real>>)
    requires UnitDraws(u)
    ensures result == Sample(paths, sampleSize, highlight, u)
  {
    if |paths| == 0 {
      return [];
    }
    if |paths| <= sampleSize && highlight.None? {
      return paths;
    }
    result := ShuffleAndCollect(paths, sampleSize, highlight, u);
  }

  /** The part of `samplePaths` after the early returns: pool, shuffle and result. */
  method ShuffleAndCollect(paths: seq<seq<real>>, sampleSize: int, highlight: Js.Option<seq<real>>, u: nat -> real)
    returns (result: seq<seq<real>>)
    requires UnitDraws(u)
    ensures result == Front(highlight) + Gather(paths, Picked(paths, sampleSize, highlight, u))
  {
    var pool := MakePool(paths, highlight);
    ghost var initial := pool[..];
    var want := if highlight.Some? then sampleSize - 1 else sampleSize;
    var need := if want < pool.Length then want else pool.Length;
    var taken := if need < 0 then 0 else need;
    assert taken == Taken(sampleSize, highlight.Some?, |initial|);
    ShuffleInPlace(pool, taken, u);
    ShuffledIsPermutation(initial, u, 0, taken);
    PermutationBounded(initial, pool[..], |paths|, ExcludeIndex(paths, highlight));
    assert pool[..][..taken] == Picked(paths, sampleSize, highlight, u);
    result := [];
    if highlight.Some? {
      result := result + [highlight.value];
    }
    assert result == Front(highlight);
    result := PushPicked(paths, result, pool[..], need);
  }

  // Properties.

  /** An empty batch gives an empty sample. */
  lemma NoPaths(sampleSize: int, highlight: Js.Option<seq<real>>, u: nat -> real)
    requires UnitDraws(u)
    ensures Sample([], sampleSize, highlight, u) == []
  {
  }

  /** Without a highlight, a batch no larger than `sampleSize` is returned whole. */
  lemma SmallBatchIsCopied(paths: seq<seq<real>>, sampleSize: int, u: nat -> real)
    requires UnitDraws(u) && |paths| <= sampleSize
    ensures Sample(paths, sampleSize, Js.None, u) == paths
  {
  }

  /** The pool leaves out exactly the first path equal to the highlight, and
      nothing when no path equals it. */
  lemma PoolLeavesOutFirstMatch(paths: seq<seq<real>>, highlight: Js.Option<seq<real>>, x: nat)
    ensures x in Pool(paths, highlight) <==> x < |paths| && x != ExcludeIndex(paths, highlight)
    ensures highlight.Some? && ExcludeIndex(paths, highlight) >= 0 ==>
              var e := ExcludeIndex(paths, highlight);
              paths[e] == highlight.value && forall j :: 0 <= j < e ==> paths[j] != highlight.value
    ensures (highlight.None? || forall j :: 0 <= j < |paths| ==> paths[j] != highlight.value) ==>
              |Pool(paths, highlight)| == |paths|
  {
    if x < |paths| && x != ExcludeIndex(paths, highlight) {
      PoolHasAllOthers(|paths|, ExcludeIndex(paths, highlight), x);
    }
    if highlight.Some? {
      FindFromIsFirst(paths, highlight.value, 0);
    }
  }

  /** With a highlight, a sample of a non-empty batch starts with it. */
  lemma HighlightLeads(paths: seq<seq<real>>, sampleSize: int, h: seq<real>, u: nat -> real)
    requires UnitDraws(u) && paths != []
    ensures var s := Sample(paths, sampleSize, Js.Some(h), u);
            |s| > 0 && s[0] == h
  {
  }

  /** The length of a shuffled sample: the highlight, if any, and `need` others. */
  lemma SampleLength(paths: seq<seq<real>>, sampleSize: int, highlight: Js.Option<seq<real>>, u: nat -> real)
    requires UnitDraws(u) && paths != [] && !CopiesAll(paths, sampleSize, highlight)
    ensures |Sample(paths, sampleSize, highlight, u)|
              == (if highlight.Some? then 1 else 0) + Taken(sampleSize, highlight.Some?, |Pool(paths, highlight)|)
  {
  }

  /** After the highlight come the picked paths, in the order they were picked. */
  lemma SampleElements(paths: seq<seq<real>>, sampleSize: int, highlight: Js.Option<seq<real>>, u: nat -> real, k: nat)
    requires UnitDraws(u) && paths != [] && !CopiesAll(paths, sampleSize, highlight)
    requires k < |Picked(paths, sampleSize, highlight, u)|
    ensures var offset := if highlight.Some? then 1 else 0;
            Sample(paths, sampleSize, highlight, u)[offset + k] == paths[Picked(paths, sampleSize, highlight, u)[k]]
  {
    var picked := Picked(paths, sampleSize, highlight, u);
    assert Sample(paths, sampleSize, highlight, u)[|Front(highlight)| + k] == Gather(paths, picked)[k];
  }

  /** Without a highlight a large batch yields exactly `sampleSize` paths. */
  lemma LargeBatchYieldsSampleSize(paths: seq<seq<real>>, sampleSize: int, u: nat -> real)
    requires UnitDraws(u) && 0 <= sampleSize < |paths|
    ensures |Sample(paths, sampleSize, Js.None, u)| == sampleSize
  {
    SampleLength(paths, sampleSize, Js.None, u);
  }
}
