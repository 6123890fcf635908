/**
 * The character-level language model: a map from windows of
 * `windowLength` characters to the lists of characters seen after them.
 * Training fills the map and derives the probabilities of every list;
 * generation extends a seed text by sampling from the map.
 *
 * Random draws are parameters: `GetRandomChar` takes its draw `r`, and
 * `Generate` takes the whole stream of draws as `draws`, using `draws(i)`
 * for the `i`-th character it appends.
 */
module LanguageModel {
  import opened CharData
  import opened Probabilities
  import opened Training
  import opened Generation

  class LanguageModel {
    /** Maps each window to the list of characters seen after it. */
    var charDataMap: map<string, CharList>

    /** The number of characters in a window. */
    const windowLength: nat

    /** The map as a value: each window with the records of its list. */
    ghost var model: Table

    /** The window whose list each list of the map is; distinct windows own distinct lists. */
    ghost var owner: map<CharList, string>

    /**
     * Window `w`, when it is a key, is a key of `model` too, owns its list,
     * and its list holds the records `model` gives it.
     */
    ghost predicate Holds(w: string)
      reads this, owner.Keys
    {
      w in charDataMap ==>
        && w in model
        && charDataMap[w] in owner && owner[charDataMap[w]] == w
        && charDataMap[w].items == model[w]
    }

    /**
     * The map holds `model`: the same keys, and each key's list holds the
     * key's records.  Each list is owned by its own key, so distinct windows
     * own distinct lists.
     */
    ghost predicate Coupled()
      reads this, owner.Keys
    {
      && charDataMap.Keys == model.Keys
      && forall w :: Holds(w)
    }

    /** The map holds `model`, every key has `windowLength` characters, and every list is well formed. */
    ghost predicate Valid()
      reads this, owner.Keys
    {
      && windowLength >= 1
      && Coupled()
      && KeysAreWindows(model, windowLength)
      && AllWellFormed(model)
    }

    /** An empty model with the given window length. */
    constructor (windowLength: nat)
      requires windowLength >= 1
      ensures Valid()
      ensures this.windowLength == windowLength && charDataMap == map[] && model == map[] && owner == map[]
    {
      this.windowLength := windowLength;
      charDataMap := map[];
      model := map[];
      owner := map[];
    }

    /**
     * Trains on `corpus`: the first `windowLength` characters form the first
     * window; every later character is recorded in the list of the window
     * before it, and the window slides on by one.  Then the probabilities of
     * every list in the map are derived.
     */
    method Train(corpus: string)
      requires Valid()
      modifies this, owner.Keys
      ensures Valid()
      ensures fresh(owner.Keys - old(owner.Keys))
      ensures AllWellFormed(Trained(old(model), corpus, windowLength))
      ensures forall w :: w in Trained(old(model), corpus, windowLength)
                ==> Finalizable(Trained(old(model), corpus, windowLength)[w])
      ensures model == FinalizeAll(Trained(old(model), corpus, windowLength))
    {
      var window, i := FirstWindow(corpus);
      ghost var start := model;
      RecordFrom(corpus, window, i);
      AccumulateKeysAreWindows(start, corpus, windowLength, |corpus|);
      AccumulateWellFormed(start, corpus, windowLength, |corpus|);
      WellFormedFinalizable(model);
      FinalizeAllKeepsShape(model, windowLength);
      CalculateAll();
    }

    /**
     * The first window of training: the first `windowLength` characters of
     * `corpus`, or all of it when it is shorter.
     */
    method FirstWindow(corpus: string) returns (window: string, i: nat)
      ensures i == if |corpus| < windowLength then |corpus| else windowLength
      ensures window == corpus[..i]
    {
      window := "";
      i := 0;
      while i < |corpus| && |window| < windowLength
        invariant i <= |corpus| && i <= windowLength && window == corpus[..i]
      {
        window := window + [corpus[i]];
        i := i + 1;
      }
    }

    /**
     * The training loop proper: from index `i` on, each character is recorded
     * in the list of `window`, the `windowLength` characters before it, and
     * the window slides on by one.
     */
    method RecordFrom(corpus: string, window: string, i: nat)
      requires windowLength >= 1 && Coupled()
      requires i <= |corpus| && i <= windowLength && (i < windowLength ==> i == |corpus|)
      requires window == corpus[..i]
      modifies this, owner.Keys
      ensures Coupled()
      ensures fresh(owner.Keys - old(owner.Keys))
      ensures model == Trained(old(model), corpus, windowLength)
    {
      ghost var start := model;
      var window := window;
      var i := i;
      while i < |corpus|
        invariant i <= |corpus|
        invariant i < windowLength ==> i == |corpus|
        invariant i >= windowLength ==> window == corpus[i - windowLength..i]
        invariant Coupled()
        invariant fresh(owner.Keys - old(owner.Keys))
        invariant model == Accumulate(start, corpus, windowLength, i)
      {
        ghost var before := model;
        window := RecordAt(corpus, i, window);
        AccumulateStep(start, corpus, windowLength, i, before, model);
        i := i + 1;
      }
    }

    /**
     * One step of the training loop: character `i` is recorded in the list of
     * `window`, the `windowLength` characters before it, and the window slides
     * on past it.
     */
    method RecordAt(corpus: string, i: nat, window: string) returns (next: string)
      requires 1 <= windowLength <= i < |corpus| && window == corpus[i - windowLength..i]
      requires Coupled()
      modifies this, owner.Keys
      ensures Coupled()
      ensures fresh(owner.Keys - old(owner.Keys))
      ensures next == corpus[i + 1 - windowLength..i + 1]
      ensures model == Record(old(model), corpus[i - windowLength..i], corpus[i])
    {
      var c := corpus[i];
      RecordInList(window, c);
      next := window[1..] + [c];
      SlideWindow(corpus, windowLength, i, window, next);
    }

    /**
     * The last step of training: the probabilities of every list in the map
     * are derived, one list at a time.
     */
    method CalculateAll()
      requires Coupled() && AllWellFormed(model)
      modifies this, owner.Keys
      ensures Coupled() && owner == old(owner) && charDataMap == old(charDataMap)
      ensures forall w :: w in old(model) ==> Finalizable(old(model)[w])
      ensures model == FinalizeAll(old(model))
    {
      WellFormedFinalizable(model);
      ghost var start := model;
      var keys := charDataMap.Keys;
      while keys != {}
        invariant keys <= charDataMap.Keys
        invariant Coupled() && owner == old(owner) && charDataMap == old(charDataMap)
        invariant FinalizedExcept(model, start, keys)
        decreases keys
      {
        var w :| w in keys;
        ghost var before := model;
        CalculateOne(w);
        FinalizeOneMore(before, start, keys, w, model[w]);
        keys := keys - {w};
      }
      FinalizedNothingPending(model, start);
    }

    /** Derives the probabilities of the list of window `w`. */
    method CalculateOne(w: string)
      requires Coupled() && w in charDataMap && Finalizable(model[w])
      modifies this, owner.Keys
      ensures Coupled() && owner == old(owner) && charDataMap == old(charDataMap)
      ensures model == old(model)[w := Finalized(old(model)[w])]
    {
      var probs := charDataMap[w];
      assert Holds(w);
      label Before:
      CalculateProbabilities(probs);
      model := model[w := probs.items];
      forall v
        ensures Holds(v)
      {
        assert old@Before(Holds(v));
      }
    }

    /**
     * One step of training: the list of `window` records one more `c`.
     */
    method RecordInList(window: string, c: char)
      requires Coupled()
      modifies this, owner.Keys
      ensures Coupled()
      ensures fresh(owner.Keys - old(owner.Keys))
      ensures model == Record(old(model), window, c)
    {
      var probs := ListFor(window);
      assert Holds(window);
      label Before:
      probs.Update(c);
      model := model[window := probs.items];
      assert owner == old@Before(owner);
      forall w
        ensures Holds(w)
      {
        assert old@Before(Holds(w));
      }
    }

    /**
     * The list of `window`, created empty and put in the map when the window
     * has none yet.
     */
    method ListFor(window: string) returns (probs: CharList)
      requires Coupled()
      modifies this
      ensures Coupled()
      ensures window in charDataMap && probs == charDataMap[window]
      ensures fresh(owner.Keys - old(owner.Keys))
      ensures model == old(model)[window := ListOf(old(model), window)]
    {
      if window in charDataMap {
        probs := charDataMap[window];
        assert Holds(window);
        assert model == model[window := ListOf(model, window)];
      } else {
        label Before:
        probs := new CharList();
        charDataMap := charDataMap[window := probs];
        model := model[window := []];
        owner := owner[probs := window];
        forall w
          ensures Holds(w)
        {
          assert old@Before(Holds(w));
        }
      }
    }

    /**
     * Derives `p` and `cp` of every record of `probs` in place: one pass sums
     * the counts, a second pass walks the list in order setting `p` to the
     * count over the total and `cp` to the running sum of `p`.
     */
    method CalculateProbabilities(probs: CharList)
      requires Finalizable(probs.items)
      modifies probs
      ensures probs.items == Finalized(old(probs.items))
    {
      var prevCp: real := 0.0;
      var charCount: nat := 0;
      var i := 0;
      while i < |probs.items|
        invariant i <= |probs.items| && charCount == SumCounts(probs.items[..i])
      {
        assert probs.items[..i + 1][..i] == probs.items[..i];
        charCount := charCount + probs.items[i].count;
        i := i + 1;
      }
      assert probs.items[..i] == probs.items;
      ghost var orig := probs.items;
      ghost var total := charCount as real;
      i := 0;
      while i < |probs.items|
        invariant |probs.items| == |orig| && i <= |orig|
        invariant orig != [] ==> charCount > 0
        invariant charCount > 0 ==> forall j :: 0 <= j < i ==> WalkedAt(probs.items, orig, total, j)
        invariant forall j :: i <= j < |orig| ==> probs.items[j] == orig[j]
        invariant prevCp == if i == 0 then 0.0 else probs.items[i - 1].cp
      {
        ghost var before := probs.items;
        var p := probs.items[i].count as real / charCount as real;
        probs.items := probs.items[i := probs.items[i].(p := p, cp := p + prevCp)];
        forall j | 0 <= j < i
          ensures WalkedAt(probs.items, orig, total, j)
        {
          assert WalkedAt(before, orig, total, j);
        }
        assert WalkedAt(probs.items, orig, total, i);
        prevCp := probs.items[i].cp;
        i := i + 1;
      }
      if charCount > 0 {
        WalkedIsFinalize(probs.items, orig, total);
      }
    }

    /**
     * The character that draw `r` picks from `probs`: that of the first
     * record, in list order, whose `cp` reaches `r`, or a space when none does.
     */
    method GetRandomChar(probs: CharList, r: real) returns (c: char)
      ensures c == Sample(probs.items, r)
    {
      var i := 0;
      while i < |probs.items|
        invariant i <= |probs.items|
        invariant forall j :: 0 <= j < i ==> probs.items[j].cp < r
      {
        if probs.items[i].cp >= r {
          return probs.items[i].chr;
        }
        i := i + 1;
      }
      return ' ';
    }

    /**
     * Extends `initialText` by sampling: while the text is at most
     * `textLength + 5` characters long, the list of its trailing window is
     * looked up and the sampled character appended; an unknown window ends
     * generation early.  A seed shorter than the window is returned as it is.
     */
    method Generate(initialText: string, textLength: int, draws: nat -> real) returns (text: string)
      requires Valid()
      ensures IsGeneration(model, windowLength, initialText, textLength, draws, text)
    {
      if |initialText| < windowLength {
        return initialText;
      }
      text := initialText;
      while |text| <= textLength + Overshoot
        invariant initialText <= text
        invariant |text| <= Max(|initialText|, textLength + Overshoot + 1)
        invariant forall k :: |initialText| <= k < |text| ==> SampledAt(model, windowLength, initialText, draws, text, k)
        decreases textLength + Overshoot - |text|
      {
        var start := if |text| - windowLength > 0 then |text| - windowLength else 0;
        var window := text[start..];
        if window !in charDataMap {
          return text;
        }
        assert Holds(window);
        var c := GetRandomChar(charDataMap[window], draws(|text| - |initialText|));
        SampledStep(model, windowLength, initialText, draws, text, c);
        text := text + [c];
      }
    }
  }

  /**
   * The program's own use of the class: a new model with window length
   * `windowLength` is trained on `corpus` and then extends `initialText`.
   * The result is what generating from the freshly trained map returns.
   */
  method TrainThenGenerate(windowLength: nat, corpus: string, initialText: string, textLength: int,
                           draws: nat -> real) returns (text: string)
    requires windowLength >= 1
    ensures var trained := Trained(map[], corpus, windowLength);
      && AllWellFormed(trained)
      && (forall w :: w in trained ==> Finalizable(trained[w]))
      && IsGeneration(FinalizeAll(trained), windowLength, initialText, textLength, draws, text)
  {
    var lm := new LanguageModel(windowLength);
    lm.Train(corpus);
    text := lm.Generate(initialText, textLength, draws);
  }
}
