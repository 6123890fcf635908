/**
 * Deriving probabilities from counts, and weighted sampling.
 *
 * Probabilities are exact reals: every identity below holds exactly, where
 * the implementation holds it only up to floating-point rounding.
 */
module Probabilities {
  import opened CharData

  /**
   * The records of `items` with `p` and `cp` derived by one walk over the list
   * in its order: `p` is the count over `total`, `cp` is the previous record's
   * `cp` (0 before the first record) plus `p`.
   */
  function Finalize(items: seq<CharData>, total: real): (r: seq<CharData>)
    requires items != [] ==> total != 0.0
    ensures |r| == |items|
    ensures forall i :: 0 <= i < |items| ==> r[i].chr == items[i].chr && r[i].count == items[i].count
    ensures forall i :: 0 <= i < |items| ==> r[i].p == items[i].count as real / total
    decreases |items|
  {
    if items == [] then []
    else
      var init := Finalize(items[..|items| - 1], total);
      var last := items[|items| - 1];
      var p := last.count as real / total;
      var prevCp := if init == [] then 0.0 else init[|init| - 1].cp;
      init + [last.(p := p, cp := p + prevCp)]
  }

  /**
   * Record `j` of `r` is record `j` of `items` as the walk leaves it: `p` is
   * the count over `total` and `cp` is the previous `cp` (0 before the first
   * record) plus `p`.
   */
  ghost predicate WalkedAt(r: seq<CharData>, items: seq<CharData>, total: real, j: nat)
    requires total != 0.0
  {
    && j < |r| && j < |items|
    && var p := items[j].count as real / total;
       r[j] == items[j].(p := p, cp := p + if j == 0 then 0.0 else r[j - 1].cp)
  }

  /** A list walked to its end is exactly what `Finalize` computes. */
  lemma {:induction false} WalkedIsFinalize(r: seq<CharData>, items: seq<CharData>, total: real)
    requires total != 0.0 && |r| == |items|
    requires forall j :: 0 <= j < |items| ==> WalkedAt(r, items, total, j)
    ensures r == Finalize(items, total)
  {
    if items != [] {
      var n := |items| - 1;
      forall j | 0 <= j < n
        ensures WalkedAt(r[..n], items[..n], total, j)
      {
        assert WalkedAt(r, items, total, j);
      }
      WalkedIsFinalize(r[..n], items[..n], total);
      assert WalkedAt(r, items, total, n);
      assert r == r[..n] + [r[n]];
    }
  }

  /** A list whose probabilities can be derived: empty, or with a positive total. */
  predicate Finalizable(items: seq<CharData>)
  {
    items == [] || SumCounts(items) > 0
  }

  /** The list with its probabilities derived from its own total count. */
  function Finalized(items: seq<CharData>): (r: seq<CharData>)
    requires Finalizable(items)
    ensures |r| == |items|
    ensures forall i :: 0 <= i < |items| ==> r[i].chr == items[i].chr && r[i].count == items[i].count
    ensures WellFormed(items) ==> WellFormed(r)
  {
    Finalize(items, SumCounts(items) as real)
  }

  /** Sum of the `p` fields, accumulated front to back. */
  function SumP(items: seq<CharData>): real
  {
    if items == [] then 0.0 else SumP(items[..|items| - 1]) + items[|items| - 1].p
  }

  lemma {:induction false} SumCountsPrefixMonotone(items: seq<CharData>, i: nat, j: nat)
    requires i <= j <= |items|
    ensures SumCounts(items[..i]) <= SumCounts(items[..j])
  {
    if i < j {
      SumCountsPrefixMonotone(items, i, j - 1);
      assert items[..j][..j - 1] == items[..j - 1];
    }
  }

  lemma {:induction false} SumCountsPrefixBound(items: seq<CharData>, i: nat)
    requires i <= |items|
    ensures SumCounts(items[..i]) <= SumCounts(items)
  {
    SumCountsPrefixMonotone(items, i, |items|);
    assert items[..|items|] == items;
  }

  /** Each record's `cp` is its predecessor's `cp` plus its own `p`. */
  lemma {:induction false} FinalizeRunningSum(items: seq<CharData>, total: real, i: nat)
    requires items != [] ==> total != 0.0
    requires i < |items|
    ensures var r := Finalize(items, total);
      r[i].cp == (if i == 0 then 0.0 else r[i - 1].cp) + r[i].p
  {
    var n := |items| - 1;
    if i < n {
      FinalizeRunningSum(items[..n], total, i);
    }
  }

  /** The `cp` of record `i` is the share of the first `i + 1` counts in `total`. */
  lemma {:induction false} FinalizeCumulative(items: seq<CharData>, total: real, i: nat)
    requires items != [] ==> total != 0.0
    requires i < |items|
    ensures Finalize(items, total)[i].cp == SumCounts(items[..i + 1]) as real / total
  {
    var r := Finalize(items, total);
    FinalizeRunningSum(items, total, i);
    assert items[..i + 1][..i] == items[..i];
    var before := SumCounts(items[..i]);
    assert SumCounts(items[..i + 1]) == before + items[i].count;
    if i > 0 {
      FinalizeCumulative(items, total, i - 1);
    }
    assert r[i].cp == before as real / total + items[i].count as real / total;
    DivAdd(before as real, items[i].count as real, total);
  }

  lemma DivAdd(a: real, b: real, t: real)
    requires t != 0.0
    ensures a / t + b / t == (a + b) / t
  {
  }

  /** The derived `cp` values never decrease along the list. */
  lemma FinalizedMonotone(items: seq<CharData>, i: nat, j: nat)
    requires Finalizable(items)
    requires i <= j < |items|
    ensures Finalized(items)[i].cp <= Finalized(items)[j].cp
  {
    var total := SumCounts(items);
    FinalizeCumulative(items, total as real, i);
    FinalizeCumulative(items, total as real, j);
    SumCountsPrefixMonotone(items, i + 1, j + 1);
    DivMonotone(SumCounts(items[..i + 1]) as real, SumCounts(items[..j + 1]) as real, total as real);
  }

  lemma DivMonotone(a: real, b: real, t: real)
    requires a <= b && t > 0.0
    ensures a / t <= b / t
  {
  }

  lemma DivUnit(a: real, t: real)
    requires 0.0 <= a <= t && t > 0.0
    ensures 0.0 <= a / t <= 1.0
    ensures a == t ==> a / t == 1.0
  {
  }

  /** After the walk, record `i` has `p` and `cp` in [0, 1]. */
  lemma FinalizedBoundsAt(items: seq<CharData>, i: nat)
    requires i < |items| && SumCounts(items) > 0
    ensures var r := Finalized(items); 0.0 <= r[i].p <= 1.0 && 0.0 <= r[i].cp <= 1.0
  {
    var total := SumCounts(items);
    var upto := SumCounts(items[..i + 1]);
    FinalizeCumulative(items, total as real, i);
    SumCountsPrefixBound(items, i + 1);
    assert items[..i + 1][..i] == items[..i];
    assert items[i].count <= upto <= total;
    DivUnit(items[i].count as real, total as real);
    DivUnit(upto as real, total as real);
  }

  /** After the walk, `p` and `cp` lie in [0, 1] and the last `cp` is exactly 1. */
  lemma FinalizedBounds(items: seq<CharData>)
    requires SumCounts(items) > 0
    ensures var r := Finalized(items);
      && r[|r| - 1].cp == 1.0
      && forall i :: 0 <= i < |r| ==> 0.0 <= r[i].p <= 1.0 && 0.0 <= r[i].cp <= 1.0
  {
    var r := Finalized(items);
    var total := SumCounts(items) as real;
    var n := |items| - 1;
    FinalizeCumulative(items, total, n);
    assert items[..n + 1] == items;
    DivUnit(total, total);
    forall i | 0 <= i < |r|
      ensures 0.0 <= r[i].p <= 1.0 && 0.0 <= r[i].cp <= 1.0
    {
      FinalizedBoundsAt(items, i);
    }
  }

  /** The `cp` of a record is the sum of the `p` values up to and including it. */
  lemma {:induction false} SumPIsCp(items: seq<CharData>, total: real, i: nat)
    requires items != [] ==> total != 0.0
    requires i < |items|
    ensures var r := Finalize(items, total); SumP(r[..i + 1]) == r[i].cp
  {
    var r := Finalize(items, total);
    FinalizeRunningSum(items, total, i);
    assert r[..i + 1][..i] == r[..i];
    if i > 0 {
      SumPIsCp(items, total, i - 1);
    }
  }

  /** The derived probabilities of a counted list sum to exactly 1. */
  lemma FinalizedSumIsOne(items: seq<CharData>)
    requires SumCounts(items) > 0
    ensures SumP(Finalized(items)) == 1.0
  {
    var r := Finalized(items);
    SumPIsCp(items, SumCounts(items) as real, |items| - 1);
    assert r[..|items|] == r;
    FinalizedBounds(items);
  }

  lemma {:induction false} SumCountsByCounts(a: seq<CharData>, b: seq<CharData>)
    requires |a| == |b|
    requires forall i :: 0 <= i < |a| ==> a[i].count == b[i].count
    ensures SumCounts(a) == SumCounts(b)
  {
    if a != [] {
      SumCountsByCounts(a[..|a| - 1], b[..|b| - 1]);
    }
  }

  /** The walk reads only characters and counts, never the old `p` or `cp`. */
  lemma {:induction false} FinalizeByCounts(a: seq<CharData>, b: seq<CharData>, total: real)
    requires a != [] ==> total != 0.0
    requires |a| == |b|
    requires forall i :: 0 <= i < |a| ==> a[i].chr == b[i].chr && a[i].count == b[i].count
    ensures Finalize(a, total) == Finalize(b, total)
  {
    if a != [] {
      FinalizeByCounts(a[..|a| - 1], b[..|b| - 1], total);
      var n := |a| - 1;
      assert a[n].(p := 0.0, cp := 0.0) == b[n].(p := 0.0, cp := 0.0);
    }
  }

  /** Deriving the probabilities a second time changes nothing. */
  lemma FinalizedIdempotent(items: seq<CharData>)
    requires Finalizable(items)
    ensures Finalizable(Finalized(items))
    ensures Finalized(Finalized(items)) == Finalized(items)
  {
    var r := Finalized(items);
    SumCountsByCounts(r, items);
    FinalizeByCounts(r, items, SumCounts(items) as real);
  }

  /** Index of the first record whose `cp` reaches `r`; `|items|` when none does. */
  function FirstReaching(items: seq<CharData>, r: real): (k: nat)
    ensures k <= |items|
    ensures forall j :: 0 <= j < k ==> items[j].cp < r
    ensures k < |items| ==> items[k].cp >= r
  {
    if items == [] then 0
    else if items[0].cp >= r then 0
    else 1 + FirstReaching(items[1..], r)
  }

  /**
   * The character chosen by draw `r`: that of the first record, in list
   * order, whose `cp` reaches `r`, or a space when no record does.
   */
  function Sample(items: seq<CharData>, r: real): (c: char)
    ensures (forall j :: 0 <= j < |items| ==> items[j].cp < r) ==> c == ' '
    ensures forall k :: 0 <= k < |items| && items[k].cp >= r && (forall j :: 0 <= j < k ==> items[j].cp < r)
              ==> c == items[k].chr
  {
    var k := FirstReaching(items, r);
    if k < |items| then items[k].chr else ' '
  }

  /** On a counted list, any draw up to 1 is reached by some record: the space fallback is unused. */
  lemma SampleNeverFallsBack(items: seq<CharData>, r: real)
    requires SumCounts(items) > 0
    requires r <= 1.0
    ensures FirstReaching(Finalized(items), r) < |items|
  {
    FinalizedBounds(items);
  }

  /**
   * Draw `r` selects record `i` exactly when `r` lies in the interval
   * (cp[i-1], cp[i]] (from 0 for the first record), whose width is the
   * record's share count / total of the list.
   */
  lemma SampleChoosesInterval(items: seq<CharData>, r: real, i: nat)
    requires SumCounts(items) > 0
    requires i < |items|
    ensures var total := SumCounts(items) as real;
      FirstReaching(Finalized(items), r) == i
      <==> (i == 0 || SumCounts(items[..i]) as real / total < r) && r <= SumCounts(items[..i + 1]) as real / total
  {
    var f := Finalized(items);
    var total := SumCounts(items) as real;
    FinalizeCumulative(items, total, i);
    if i > 0 {
      FinalizeCumulative(items, total, i - 1);
      assert items[..i - 1 + 1] == items[..i];
    }
    var k := FirstReaching(f, r);
    if (i == 0 || f[i - 1].cp < r) && r <= f[i].cp {
      if k < i {
        FinalizedMonotone(items, k, i - 1);
      }
    }
  }
}
