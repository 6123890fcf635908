/**
 * The per-window list of successor characters.
 *
 * A CharData record holds one character seen after a window, how often it
 * was seen, and the probability `p` and cumulative probability `cp` derived
 * from the counts.  A window's list keeps its records in the order in which
 * the characters were first seen after that window.
 */
module CharData {

  datatype CharData = CharData(chr: char, count: nat, p: real, cp: real)

  /** The characters of a list, in list order. */
  function Chars(items: seq<CharData>): seq<char>
  {
    seq(|items|, i requires 0 <= i < |items| => items[i].chr)
  }

  /** Every record has been counted at least once and no character occurs twice. */
  ghost predicate WellFormed(items: seq<CharData>)
  {
    && (forall i :: 0 <= i < |items| ==> items[i].count >= 1)
    && (forall i, j :: 0 <= i < j < |items| ==> items[i].chr != items[j].chr)
  }

  /** Index of the first record holding `c`, or -1 when there is none. */
  function IndexOf(items: seq<CharData>, c: char): (k: int)
    ensures -1 <= k < |items|
    ensures k == -1 <==> forall i :: 0 <= i < |items| ==> items[i].chr != c
    ensures k >= 0 ==> items[k].chr == c && forall i :: 0 <= i < k ==> items[i].chr != c
  {
    if items == [] then -1
    else if items[0].chr == c then 0
    else
      var k := IndexOf(items[1..], c);
      if k == -1 then -1 else k + 1
  }

  /** The position of a character depends only on the characters of the list. */
  lemma {:induction false} IndexOfByChars(a: seq<CharData>, b: seq<CharData>, c: char)
    requires Chars(a) == Chars(b)
    ensures IndexOf(a, c) == IndexOf(b, c)
  {
    if a != [] {
      assert a[0].chr == Chars(a)[0] == Chars(b)[0] == b[0].chr;
      assert Chars(a[1..]) == Chars(a)[1..] == Chars(b)[1..] == Chars(b[1..]);
      IndexOfByChars(a[1..], b[1..], c);
    }
  }

  /** How often `c` has been recorded in the list (0 when it has no record). */
  function CountOf(items: seq<CharData>, c: char): nat
  {
    var k := IndexOf(items, c);
    if k == -1 then 0 else items[k].count
  }

  /** Sum of the counts of a list, accumulated front to back. */
  function SumCounts(items: seq<CharData>): nat
  {
    if items == [] then 0 else SumCounts(items[..|items| - 1]) + items[|items| - 1].count
  }

  lemma {:induction false} SumCountsAppend(items: seq<CharData>, d: CharData)
    ensures SumCounts(items + [d]) == SumCounts(items) + d.count
  {
    assert (items + [d])[..|items|] == items;
  }

  /** Replacing one record changes the sum by the difference of the two counts. */
  lemma {:induction false} SumCountsReplace(items: seq<CharData>, k: nat, d: CharData)
    requires k < |items|
    ensures SumCounts(items[k := d]) + items[k].count == SumCounts(items) + d.count
  {
    var n := |items| - 1;
    if k == n {
      assert items[k := d][..n] == items[..n];
    } else {
      SumCountsReplace(items[..n], k, d);
      assert items[k := d][..n] == items[..n][k := d];
    }
  }

  /** A well-formed non-empty list has a positive total. */
  lemma {:induction false} WellFormedTotalPositive(items: seq<CharData>)
    requires WellFormed(items) && items != []
    ensures SumCounts(items) > 0
  {
  }

  /**
   * The list after one more occurrence of `c`: the count of the record for
   * `c` goes up by one where it stands, or, on the first occurrence, a record
   * with count 1 (and p, cp not yet derived) goes at the end.
   */
  function Updated(items: seq<CharData>, c: char): seq<CharData>
  {
    var k := IndexOf(items, c);
    if k == -1 then items + [CharData(c, 1, 0.0, 0.0)]
    else items[k := items[k].(count := items[k].count + 1)]
  }

  /** Appending a record does not move the first occurrence of a character already present. */
  lemma {:induction false} IndexOfAppend(items: seq<CharData>, x: CharData, d: char)
    ensures IndexOf(items + [x], d)
            == if IndexOf(items, d) != -1 then IndexOf(items, d) else if x.chr == d then |items| else -1
  {
    if items != [] {
      assert (items + [x])[1..] == items[1..] + [x];
      IndexOfAppend(items[1..], x, d);
    }
  }

  /** A character is in the list exactly when it has an index there. */
  lemma InChars(items: seq<CharData>, c: char)
    ensures c in Chars(items) <==> IndexOf(items, c) != -1
  {
    var k := IndexOf(items, c);
    if k != -1 {
      assert Chars(items)[k] == c;
    }
  }

  /** Raising the count of record `k` leaves the characters of the list unchanged. */
  lemma IncrementChars(items: seq<CharData>, k: nat)
    requires k < |items|
    ensures Chars(items[k := items[k].(count := items[k].count + 1)]) == Chars(items)
  {
  }

  /** One more occurrence of `c` raises the count of `c` by one and leaves every other count alone. */
  lemma UpdatedCounts(items: seq<CharData>, c: char)
    ensures forall d :: CountOf(Updated(items, c), d) == CountOf(items, d) + (if d == c then 1 else 0)
  {
    var k := IndexOf(items, c);
    var r := Updated(items, c);
    forall d ensures CountOf(r, d) == CountOf(items, d) + (if d == c then 1 else 0) {
      if k == -1 {
        IndexOfAppend(items, CharData(c, 1, 0.0, 0.0), d);
      } else {
        IncrementChars(items, k);
        IndexOfByChars(r, items, d);
      }
    }
  }

  /** One more occurrence raises the total of the list by one. */
  lemma UpdatedSum(items: seq<CharData>, c: char)
    ensures SumCounts(Updated(items, c)) == SumCounts(items) + 1
  {
    var k := IndexOf(items, c);
    if k == -1 {
      SumCountsAppend(items, CharData(c, 1, 0.0, 0.0));
    } else {
      SumCountsReplace(items, k, items[k].(count := items[k].count + 1));
    }
  }

  /** Records keep their places; a character seen for the first time goes last. */
  lemma UpdatedChars(items: seq<CharData>, c: char)
    ensures Chars(Updated(items, c)) == if c in Chars(items) then Chars(items) else Chars(items) + [c]
  {
    var k := IndexOf(items, c);
    InChars(items, c);
    if k == -1 {
      assert Chars(items + [CharData(c, 1, 0.0, 0.0)]) == Chars(items) + [c];
    } else {
      IncrementChars(items, k);
    }
  }

  /** Updating keeps counts positive and characters distinct. */
  lemma UpdatedWellFormed(items: seq<CharData>, c: char)
    requires WellFormed(items)
    ensures WellFormed(Updated(items, c))
  {
  }

  /**
   * A window's list of records.  Records are changed in place: `Update`
   * increments a count or appends a record, and the probability pass rewrites
   * `p` and `cp` of each record.
   */
  class CharList {
    var items: seq<CharData>

    constructor ()
      ensures items == []
    {
      items := [];
    }

    /** Records one more occurrence of `c`. */
    method Update(c: char)
      modifies this
      ensures items == Updated(old(items), c)
    {
      items := Updated(items, c);
    }
  }
}
