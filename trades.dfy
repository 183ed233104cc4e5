/** A stored trade as the report, analysis and calendar pages read it.
    `created_at` is only ever read through JavaScript `Date`; the values the
    pages derive from it are kept as abstract fields of the trade. */
module Trades {
  import Sorting

  /** `getDate()`: a day of the month. */
  type DayOfMonth = d: int | 1 <= d <= 31 witness 1

  /** `getMonth() + 1`: a month number. */
  type MonthNumber = m: int | 1 <= m <= 12 witness 1

  /** A local year and month, which the source writes as the key `YYYY-MM`. */
  datatype MonthKey = MonthKey(year: int, month: MonthNumber)

  datatype Trade = Trade(
    time: real,             // new Date(created_at).getTime()
    dayKey: string,         // the local calendar day, toISODateKey(getTradeDate(created_at))
    monthKey: MonthKey,     // the local year and month of created_at
    dayOfMonth: DayOfMonth, // the local day of the month of created_at
    pnl: real)

  function TimeOf(t: Trade): real { t.time }

  /** `trades.map((t) => t.pnl)` */
  function Pnls(ts: seq<Trade>): (r: seq<real>)
    ensures |r| == |ts| && forall i :: 0 <= i < |ts| ==> r[i] == ts[i].pnl
  {
    seq(|ts|, i requires 0 <= i < |ts| => ts[i].pnl)
  }

  lemma PnlsAppend(a: seq<Trade>, b: seq<Trade>)
    ensures Pnls(a + b) == Pnls(a) + Pnls(b)
  {
  }

  /** `[...trades].sort((a, b) => time(a) - time(b))`: a stable sort by date. */
  function ByDate(ts: seq<Trade>): (r: seq<Trade>)
    ensures multiset(r) == multiset(ts) && |r| == |ts|
    ensures forall i, j :: 0 <= i < j < |r| ==> r[i].time <= r[j].time
  {
    var r := Sorting.SortBy(ts, TimeOf);
    assert Sorting.SortedBy(r, TimeOf);
    r
  }

  /** Trades with the same date stay in their input order. */
  lemma ByDateStable(ts: seq<Trade>, time: real)
    ensures Sorting.WithKey(ByDate(ts), TimeOf, time) == Sorting.WithKey(ts, TimeOf, time)
  {
    Sorting.SortByStable(ts, TimeOf, time);
  }

  /** Taking trade `j` out takes its profit out of the profits. */
  lemma PnlsWithout(b: seq<Trade>, j: nat)
    requires j < |b|
    ensures multiset(Pnls(b)) == multiset(Pnls(b[..j] + b[j + 1..])) + multiset{b[j].pnl}
  {
    assert b == b[..j] + [b[j]] + b[j + 1..];
    PnlsAppend(b[..j] + [b[j]], b[j + 1..]);
    PnlsAppend(b[..j], [b[j]]);
    PnlsAppend(b[..j], b[j + 1..]);
  }

  /** Reordering trades reorders their profits the same way. */
  lemma {:induction false} PnlsPermutation(a: seq<Trade>, b: seq<Trade>)
    requires multiset(a) == multiset(b)
    ensures multiset(Pnls(a)) == multiset(Pnls(b))
    decreases |a|
  {
    if a == [] {
      assert |b| == |multiset(b)| == 0;
    } else {
      var i := |a| - 1;
      var x := a[i];
      assert x in multiset(b);
      var j :| 0 <= j < |b| && b[j] == x;
      var restA, restB := a[..i] + a[i + 1..], b[..j] + b[j + 1..];
      assert a == a[..i] + [x] + a[i + 1..] && b == b[..j] + [x] + b[j + 1..];
      assert multiset(restA) == multiset(a) - multiset{x};
      assert multiset(restB) == multiset(b) - multiset{x};
      PnlsPermutation(restA, restB);
      PnlsWithout(a, i);
      PnlsWithout(b, j);
    }
  }

  /** The months of the trades, one per trade. */
  function MonthsOf(ts: seq<Trade>): (r: seq<MonthKey>)
    ensures |r| == |ts| && forall i :: 0 <= i < |ts| ==> r[i] == ts[i].monthKey
  {
    seq(|ts|, i requires 0 <= i < |ts| => ts[i].monthKey)
  }

  /** The day keys of the trades, one per trade. */
  function DaysOf(ts: seq<Trade>): (r: seq<string>)
    ensures |r| == |ts| && forall i :: 0 <= i < |ts| ==> r[i] == ts[i].dayKey
  {
    seq(|ts|, i requires 0 <= i < |ts| => ts[i].dayKey)
  }

  /** The keys in order of first appearance: the order in which a JavaScript
      `Map`, or a record with non-numeric keys, lists keys as they are set. */
  function Distinct<K(==)>(ks: seq<K>): seq<K>
  {
    if ks == [] then []
    else
      var r := Distinct(ks[..|ks| - 1]);
      var k := ks[|ks| - 1];
      if k in r then r else r + [k]
  }

  lemma DistinctAppend<K>(ks: seq<K>, k: K)
    ensures Distinct(ks + [k]) == if k in Distinct(ks) then Distinct(ks) else Distinct(ks) + [k]
  {
    assert (ks + [k])[..|ks|] == ks;
  }

  /** Each key appears once, and the keys are exactly those given. */
  lemma {:induction false} DistinctFacts<K>(ks: seq<K>)
    ensures var r := Distinct(ks);
            (forall i, j :: 0 <= i < j < |r| ==> r[i] != r[j]) &&
            (forall k :: k in r <==> k in ks) &&
            (r == [] <==> ks == [])
    decreases |ks|
  {
    if ks != [] {
      var init := ks[..|ks| - 1];
      DistinctFacts(init);
      assert ks == init + [ks[|ks| - 1]];
    }
  }

  /** There are as many keys as there are different ones given. */
  lemma {:induction false} DistinctCount<K>(ks: seq<K>)
    ensures |Distinct(ks)| == |set k | k in ks|
    decreases |ks|
  {
    if ks != [] {
      var init := ks[..|ks| - 1];
      var k := ks[|ks| - 1];
      DistinctCount(init);
      DistinctFacts(init);
      assert ks == init + [k];
      var before := set x | x in init;
      assert (set x | x in ks) == before + {k};
      if k in init {
        assert before + {k} == before;
        assert Distinct(ks) == Distinct(init);
      } else {
        assert k !in before && k !in Distinct(init);
        assert Distinct(ks) == Distinct(init) + [k];
        assert |before + {k}| == |before| + 1;
      }
    }
  }
}
