/**
 * Training as a fold over the corpus.
 *
 * A window of `n` characters slides over the corpus; each character that
 * follows a full window is recorded in that window's list.  The functions
 * here give the value of the model's map after training, and the lemmas
 * state what that map holds: its keys, its exact counts, the order of each
 * list and the overall total.
 */
module Training {
  import opened CharData
  import opened Probabilities

  /** The value of the model's map: each window with its list of records. */
  type Table = map<string, seq<CharData>>

  /** The list of window `w`, empty when `w` is not a key. */
  function ListOf(t: Table, w: string): seq<CharData>
  {
    if w in t then t[w] else []
  }

  /** The table after seeing `c` follow `w`: the list of `w` is created if missing, then updated. */
  function Record(t: Table, w: string, c: char): Table
  {
    t[w := Updated(ListOf(t, w), c)]
  }

  /**
   * The table once the window has passed the first `k` characters: for each
   * index `j` with `n <= j < k`, character `corpus[j]` has been recorded
   * under the `n` characters before it.  Nothing is recorded while fewer than
   * `n` characters have been read.
   */
  function Accumulate(t: Table, corpus: string, n: nat, k: nat): Table
    requires k <= |corpus|
  {
    if k <= n then t
    else Record(Accumulate(t, corpus, n, k - 1), corpus[k - 1 - n..k - 1], corpus[k - 1])
  }

  /** The table after training on the whole corpus, starting from `t`. */
  function Trained(t: Table, corpus: string, n: nat): Table
  {
    Accumulate(t, corpus, n, |corpus|)
  }

  /** Moving past character `i` slides the window of the `n` characters before it by one. */
  lemma SlideWindow(corpus: string, n: nat, i: nat, window: string, next: string)
    requires 1 <= n <= i < |corpus|
    requires window == corpus[i - n..i] && next == window[1..] + [corpus[i]]
    ensures next == corpus[i + 1 - n..i + 1]
  {
  }

  /** Recording character `i` under the `n` characters before it extends the fold by one step. */
  lemma AccumulateStep(t: Table, corpus: string, n: nat, i: nat, before: Table, after: Table)
    requires n <= i < |corpus|
    requires before == Accumulate(t, corpus, n, i)
    requires after == Record(before, corpus[i - n..i], corpus[i])
    ensures after == Accumulate(t, corpus, n, i + 1)
  {
  }

  /** The number of indices `j`, `n <= j < k`, whose `n` preceding characters are `w`. */
  function Contexts(corpus: string, n: nat, w: string, k: nat): nat
    requires k <= |corpus|
  {
    if k <= n then 0
    else Contexts(corpus, n, w, k - 1) + (if corpus[k - 1 - n..k - 1] == w then 1 else 0)
  }

  /** The number of indices `j`, `n <= j < k`, where `c` follows the window `w`. */
  function Successions(corpus: string, n: nat, w: string, c: char, k: nat): nat
    requires k <= |corpus|
  {
    if k <= n then 0
    else Successions(corpus, n, w, c, k - 1)
         + (if corpus[k - 1 - n..k - 1] == w && corpus[k - 1] == c then 1 else 0)
  }

  /** The characters that follow window `w` before index `k`, in corpus order. */
  function Followers(corpus: string, n: nat, w: string, k: nat): seq<char>
    requires k <= |corpus|
  {
    if k <= n then []
    else Followers(corpus, n, w, k - 1) + (if corpus[k - 1 - n..k - 1] == w then [corpus[k - 1]] else [])
  }

  /** The distinct characters of `s`, each at the place of its first occurrence. */
  function FirstOccurrences(s: seq<char>): seq<char>
  {
    if s == [] then []
    else
      var d := FirstOccurrences(s[..|s| - 1]);
      if s[|s| - 1] in d then d else d + [s[|s| - 1]]
  }

  /** Training on a corpus no longer than the window records nothing. */
  lemma TrainedShortCorpus(t: Table, corpus: string, n: nat)
    requires |corpus| <= n
    ensures Trained(t, corpus, n) == t
  {
  }

  /** Every key added while training is a window of exactly `n` characters. */
  lemma {:induction false} AccumulateKeysAreWindows(t: Table, corpus: string, n: nat, k: nat)
    requires k <= |corpus|
    requires forall w :: w in t ==> |w| == n
    ensures forall w :: w in Accumulate(t, corpus, n, k) ==> |w| == n
  {
    if k > n {
      var prev := Accumulate(t, corpus, n, k - 1);
      assert forall w :: w in prev ==> |w| == n by {
        AccumulateKeysAreWindows(t, corpus, n, k - 1);
      }
      var w := corpus[k - 1 - n..k - 1];
      assert Accumulate(t, corpus, n, k).Keys == prev.Keys + {w};
    }
  }

  /** Training keeps every list well formed. */
  lemma {:induction false} AccumulateWellFormed(t: Table, corpus: string, n: nat, k: nat)
    requires k <= |corpus|
    requires forall w :: w in t ==> WellFormed(t[w])
    ensures forall w :: w in Accumulate(t, corpus, n, k) ==> WellFormed(Accumulate(t, corpus, n, k)[w])
  {
    if k > n {
      var prev := Accumulate(t, corpus, n, k - 1);
      assert forall w :: w in prev ==> WellFormed(prev[w]) by {
        AccumulateWellFormed(t, corpus, n, k - 1);
      }
      UpdatedWellFormed(ListOf(prev, corpus[k - 1 - n..k - 1]), corpus[k - 1]);
    }
  }

  /** Starting from an empty map, the count of `c` in the list of `w` is the number of times `c` followed `w`. */
  lemma {:induction false} AccumulateCountsExact(corpus: string, n: nat, k: nat)
    requires k <= |corpus|
    ensures forall w, c :: CountOf(ListOf(Accumulate(map[], corpus, n, k), w), c) == Successions(corpus, n, w, c, k)
  {
    if k > n {
      AccumulateCountsExact(corpus, n, k - 1);
      var prev := Accumulate(map[], corpus, n, k - 1);
      UpdatedCounts(ListOf(prev, corpus[k - 1 - n..k - 1]), corpus[k - 1]);
    }
  }

  /** Starting from an empty map, the counts of the list of `w` add up to the number of times `w` was a context. */
  lemma {:induction false} AccumulateSumsExact(corpus: string, n: nat, k: nat)
    requires k <= |corpus|
    ensures forall w :: SumCounts(ListOf(Accumulate(map[], corpus, n, k), w)) == Contexts(corpus, n, w, k)
  {
    if k > n {
      AccumulateSumsExact(corpus, n, k - 1);
      var prev := Accumulate(map[], corpus, n, k - 1);
      UpdatedSum(ListOf(prev, corpus[k - 1 - n..k - 1]), corpus[k - 1]);
    }
  }

  /** Starting from an empty map, a window is a key exactly when it was followed by some character. */
  lemma {:induction false} AccumulateKeysOccur(corpus: string, n: nat, k: nat)
    requires k <= |corpus|
    ensures forall w :: w in Accumulate(map[], corpus, n, k) <==> Contexts(corpus, n, w, k) > 0
  {
    if k > n {
      AccumulateKeysOccur(corpus, n, k - 1);
    }
  }

  lemma FirstOccurrencesSnoc(f: seq<char>, c: char)
    ensures FirstOccurrences(f + [c])
            == if c in FirstOccurrences(f) then FirstOccurrences(f) else FirstOccurrences(f) + [c]
  {
    assert (f + [c])[..|f|] == f;
  }

  /** Updating a list in first-occurrence order of `f` with `c` gives the first-occurrence order of `f + [c]`. */
  lemma UpdatedKeepsOrder(before: seq<CharData>, f: seq<char>, c: char)
    requires Chars(before) == FirstOccurrences(f)
    ensures Chars(Updated(before, c)) == FirstOccurrences(f + [c])
  {
    UpdatedChars(before, c);
    FirstOccurrencesSnoc(f, c);
  }

  /**
   * One step of AccumulateOrder, on values: recording `c` after window `v`
   * keeps the list of `w` in first-occurrence order of its followers, which
   * gain `c` exactly when `v` is `w`.
   */
  lemma OrderStep(before: Table, after: Table, w: string, v: string, c: char, f: seq<char>, g: seq<char>)
    requires after == Record(before, v, c)
    requires g == f + (if v == w then [c] else [])
    requires Chars(ListOf(before, w)) == FirstOccurrences(f)
    ensures Chars(ListOf(after, w)) == FirstOccurrences(g)
  {
    if v == w {
      UpdatedKeepsOrder(ListOf(before, w), f, c);
    } else {
      assert ListOf(after, w) == ListOf(before, w);
      assert g == f;
    }
  }

  /** Starting from an empty map, each list holds the followers of its window in first-occurrence order. */
  lemma {:induction false} AccumulateOrder(corpus: string, n: nat, k: nat, w: string)
    requires k <= |corpus|
    ensures Chars(ListOf(Accumulate(map[], corpus, n, k), w)) == FirstOccurrences(Followers(corpus, n, w, k))
  {
    if k > n {
      var prev := Accumulate(map[], corpus, n, k - 1);
      var f := Followers(corpus, n, w, k - 1);
      assert Chars(ListOf(prev, w)) == FirstOccurrences(f) by {
        AccumulateOrder(corpus, n, k - 1, w);
      }
      OrderStep(prev, Accumulate(map[], corpus, n, k), w,
                corpus[k - 1 - n..k - 1], corpus[k - 1], f, Followers(corpus, n, w, k));
    } else {
      assert Accumulate(map[], corpus, n, k) == map[];
      assert Followers(corpus, n, w, k) == [];
    }
  }

  /** Sum of the list totals over a set of keys. */
  ghost function TotalOver(t: Table, ks: set<string>): nat
    requires ks <= t.Keys
    decreases ks
  {
    if ks == {} then 0
    else
      var w :| w in ks;
      SumCounts(t[w]) + TotalOver(t, ks - {w})
  }

  /** The total over a set can be taken apart at any of its keys. */
  lemma {:induction false} TotalOverPick(t: Table, ks: set<string>, w: string)
    requires ks <= t.Keys && w in ks
    ensures TotalOver(t, ks) == SumCounts(t[w]) + TotalOver(t, ks - {w})
    decreases ks
  {
    var v :| v in ks && TotalOver(t, ks) == SumCounts(t[v]) + TotalOver(t, ks - {v});
    if v != w {
      TotalOverPick(t, ks - {v}, w);
      TotalOverPick(t, ks - {w}, v);
      assert ks - {v} - {w} == ks - {w} - {v};
    }
  }

  /** The total over a set depends only on the lists of its keys. */
  lemma {:induction false} TotalOverFrame(t: Table, u: Table, ks: set<string>)
    requires ks <= t.Keys && ks <= u.Keys
    requires forall w :: w in ks ==> SumCounts(t[w]) == SumCounts(u[w])
    ensures TotalOver(t, ks) == TotalOver(u, ks)
    decreases ks
  {
    if ks != {} {
      var w :| w in ks;
      TotalOverPick(t, ks, w);
      TotalOverPick(u, ks, w);
      TotalOverFrame(t, u, ks - {w});
    }
  }

  /** Recording one more character raises the total over all keys by one. */
  lemma TotalOverRecord(t: Table, w: string, c: char)
    ensures var u := Record(t, w, c); TotalOver(u, u.Keys) == TotalOver(t, t.Keys) + 1
  {
    var u := Record(t, w, c);
    UpdatedSum(ListOf(t, w), c);
    TotalOverPick(u, u.Keys, w);
    TotalOverFrame(u, t, u.Keys - {w});
    if w in t {
      TotalOverPick(t, t.Keys, w);
      assert u.Keys - {w} == t.Keys - {w};
    } else {
      assert u.Keys - {w} == t.Keys;
    }
  }

  /** Starting from an empty map, the counts of all lists together number the characters that followed a full window. */
  lemma {:induction false} AccumulateTotal(corpus: string, n: nat, k: nat)
    requires n <= k <= |corpus|
    ensures var t := Accumulate(map[], corpus, n, k); TotalOver(t, t.Keys) == k - n
  {
    if k > n {
      var prev := Accumulate(map[], corpus, n, k - 1);
      assert TotalOver(prev, prev.Keys) == k - 1 - n by {
        AccumulateTotal(corpus, n, k - 1);
      }
      TotalOverRecord(prev, corpus[k - 1 - n..k - 1], corpus[k - 1]);
    }
  }

  /** The counts over all windows after training a fresh model add up to `|corpus| - n`. */
  lemma TrainedTotal(corpus: string, n: nat)
    requires n <= |corpus|
    ensures var t := Trained(map[], corpus, n); TotalOver(t, t.Keys) == |corpus| - n
  {
    AccumulateTotal(corpus, n, |corpus|);
  }

  /** Every list of the table is well formed. */
  ghost predicate AllWellFormed(t: Table)
  {
    forall w :: w in t ==> WellFormed(t[w])
  }

  /** Every key of the table is a window of `n` characters. */
  ghost predicate KeysAreWindows(t: Table, n: nat)
  {
    forall w :: w in t ==> |w| == n
  }

  /** The table with the probabilities of every list derived. */
  function FinalizeAll(t: Table): Table
    requires forall w :: w in t ==> Finalizable(t[w])
  {
    map w | w in t :: Finalized(t[w])
  }

  /**
   * `m` is `start` with the probabilities derived for every list except
   * those of the windows in `pending`.
   */
  ghost predicate FinalizedExcept(m: Table, start: Table, pending: set<string>)
    requires forall w :: w in start ==> Finalizable(start[w])
  {
    && m.Keys == start.Keys
    && forall w :: w in m ==> m[w] == if w in pending then start[w] else Finalized(start[w])
  }

  /** Deriving the probabilities of one more pending list. */
  lemma FinalizeOneMore(m: Table, start: Table, pending: set<string>, w: string, items: seq<CharData>)
    requires forall v :: v in start ==> Finalizable(start[v])
    requires FinalizedExcept(m, start, pending) && w in pending && w in m
    requires items == Finalized(m[w])
    ensures FinalizedExcept(m[w := items], start, pending - {w})
  {
  }

  /** Once nothing is pending, every list has its probabilities derived. */
  lemma FinalizedNothingPending(m: Table, start: Table)
    requires forall v :: v in start ==> Finalizable(start[v])
    requires FinalizedExcept(m, start, {})
    ensures m == FinalizeAll(start)
  {
  }

  /** Deriving the probabilities of every list keeps keys windows and lists well formed. */
  lemma FinalizeAllKeepsShape(t: Table, n: nat)
    requires KeysAreWindows(t, n) && AllWellFormed(t)
    requires forall w :: w in t ==> Finalizable(t[w])
    ensures KeysAreWindows(FinalizeAll(t), n) && AllWellFormed(FinalizeAll(t))
  {
  }

  lemma WellFormedFinalizable(t: Table)
    requires AllWellFormed(t)
    ensures forall w :: w in t ==> Finalizable(t[w])
  {
    forall w | w in t ensures Finalizable(t[w]) {
      if t[w] != [] {
        WellFormedTotalPositive(t[w]);
      }
    }
  }

  /** Deriving probabilities leaves the character counts and totals of a list as they were. */
  lemma FinalizedKeepsCounts(items: seq<CharData>, c: char)
    requires Finalizable(items)
    ensures CountOf(Finalized(items), c) == CountOf(items, c)
    ensures SumCounts(Finalized(items)) == SumCounts(items)
    ensures Chars(Finalized(items)) == Chars(items)
  {
    var r := Finalized(items);
    assert Chars(r) == Chars(items);
    IndexOfByChars(r, items, c);
    SumCountsByCounts(r, items);
  }

  /**
   * What a freshly constructed model holds once trained on `corpus` with
   * window length `n`: a window is a key exactly when it was followed by a
   * character, the count of each character is the number of times it followed
   * the window, the counts of a list add up to the number of times its window
   * was followed, the list is in first-occurrence order and well formed, and
   * every key has `n` characters.
   */
  lemma FreshModelTrained(corpus: string, n: nat, w: string, c: char)
    ensures var trained := Trained(map[], corpus, n);
      && AllWellFormed(trained)
      && (forall w :: w in trained ==> Finalizable(trained[w]))
      && var m := FinalizeAll(trained);
      && (w in m <==> Contexts(corpus, n, w, |corpus|) > 0)
      && (w in m ==> |w| == n)
      && CountOf(ListOf(m, w), c) == Successions(corpus, n, w, c, |corpus|)
      && SumCounts(ListOf(m, w)) == Contexts(corpus, n, w, |corpus|)
      && Chars(ListOf(m, w)) == FirstOccurrences(Followers(corpus, n, w, |corpus|))
  {
    var trained := Trained(map[], corpus, n);
    AccumulateWellFormed(map[], corpus, n, |corpus|);
    WellFormedFinalizable(trained);
    AccumulateKeysAreWindows(map[], corpus, n, |corpus|);
    AccumulateKeysOccur(corpus, n, |corpus|);
    AccumulateCountsExact(corpus, n, |corpus|);
    AccumulateSumsExact(corpus, n, |corpus|);
    AccumulateOrder(corpus, n, |corpus|, w);
    if w in trained {
      FinalizedKeepsCounts(trained[w], c);
    }
  }
}
