/**
 * What text generation produces.
 *
 * Generation starts from a seed text and repeatedly appends the character
 * sampled from the list of the text's trailing window.  It stops when that
 * window is not a key of the map, or once the text is longer than the
 * requested length plus an allowance of five characters.
 */
module Generation {
  import opened CharData
  import opened Probabilities
  import opened Training

  /** How many characters past the requested length generation may still go on. */
  const Overshoot: nat := 5

  function Max(a: int, b: int): int
  {
    if a < b then b else a
  }

  /**
   * `text` is what generating from `initialText` with map `t`, window length
   * `n`, requested length `textLength` and random draws `draws` returns:
   * - a seed shorter than the window is returned as it is;
   * - the seed is a prefix of the result;
   * - the result is no longer than the seed or `textLength + Overshoot + 1`;
   * - when the result is not past `textLength + Overshoot`, generation stopped
   *   because its trailing window is not a key;
   * - the character at each appended position `k` is the sample, with the
   *   draw numbered `k - |initialText|`, from the list of the `n` characters
   *   before it.
   */
  ghost predicate IsGeneration(t: Table, n: nat, initialText: string, textLength: int, draws: nat -> real, text: string)
  {
    && (|initialText| < n ==> text == initialText)
    && initialText <= text
    && |text| <= Max(|initialText|, textLength + Overshoot + 1)
    && (|initialText| >= n && |text| <= textLength + Overshoot ==> text[|text| - n..] !in t)
    && (forall k :: |initialText| <= k < |text| ==> SampledAt(t, n, initialText, draws, text, k))
  }

  /**
   * Position `k` of `text` holds the character that draw `k - |initialText|`
   * samples from the list of the window of `n` characters just before it.
   */
  ghost predicate SampledAt(t: Table, n: nat, initialText: string, draws: nat -> real, text: string, k: nat)
  {
    && |initialText| <= k < |text|
    && n <= k
    && text[k - n..k] in t
    && text[k] == Sample(t[text[k - n..k]], draws(k - |initialText|))
  }

  /** Appending the sample of the trailing window extends a generation by one position. */
  lemma SampledStep(t: Table, n: nat, initialText: string, draws: nat -> real, text: string, c: char)
    requires initialText <= text && n <= |text|
    requires forall k :: |initialText| <= k < |text| ==> SampledAt(t, n, initialText, draws, text, k)
    requires text[|text| - n..] in t
    requires c == Sample(t[text[|text| - n..]], draws(|text| - |initialText|))
    ensures initialText <= text + [c]
    ensures forall k :: |initialText| <= k < |text| + 1 ==> SampledAt(t, n, initialText, draws, text + [c], k)
  {
    var next := text + [c];
    assert next[|text| - n..|text|] == text[|text| - n..];
    assert SampledAt(t, n, initialText, draws, next, |text|);
    forall k | |initialText| <= k < |text|
      ensures SampledAt(t, n, initialText, draws, next, k)
    {
      assert SampledAt(t, n, initialText, draws, text, k);
      assert next[k - n..k] == text[k - n..k];
    }
  }

  /** Two generations from the same inputs agree on the positions both have. */
  lemma {:induction false} GenerationsAgree(t: Table, n: nat, initialText: string, textLength: int,
                                             draws: nat -> real, a: string, b: string, j: nat)
    requires IsGeneration(t, n, initialText, textLength, draws, a)
    requires IsGeneration(t, n, initialText, textLength, draws, b)
    requires j <= |a| && j <= |b|
    ensures a[..j] == b[..j]
  {
    if j > |initialText| {
      GenerationsAgree(t, n, initialText, textLength, draws, a, b, j - 1);
      var k := j - 1;
      assert SampledAt(t, n, initialText, draws, a, k) && SampledAt(t, n, initialText, draws, b, k);
      EqualPrefixesEqualWindows(a, b, k, n);
      EqualPrefixesSnoc(a, b, k);
    } else {
      assert a[..j] == initialText[..j] == b[..j];
    }
  }

  /** Texts that agree up to `k` have the same `n` characters before `k`. */
  lemma EqualPrefixesEqualWindows(a: string, b: string, k: nat, n: nat)
    requires n <= k <= |a| && k <= |b| && a[..k] == b[..k]
    ensures a[k - n..k] == b[k - n..k]
  {
    assert a[k - n..k] == a[..k][k - n..];
    assert b[k - n..k] == b[..k][k - n..];
  }

  /** Texts that agree up to `k` and at `k` agree up to `k + 1`. */
  lemma EqualPrefixesSnoc(a: string, b: string, k: nat)
    requires k < |a| && k < |b| && a[..k] == b[..k] && a[k] == b[k]
    ensures a[..k + 1] == b[..k + 1]
  {
    assert a[..k + 1] == a[..k] + [a[k]];
    assert b[..k + 1] == b[..k] + [b[k]];
  }

  /**
   * Generation is reproducible: the same map, seed, length and draws admit
   * exactly one result.
   */
  lemma GenerationDeterministic(t: Table, n: nat, initialText: string, textLength: int,
                                draws: nat -> real, a: string, b: string)
    requires IsGeneration(t, n, initialText, textLength, draws, a)
    requires IsGeneration(t, n, initialText, textLength, draws, b)
    ensures a == b
  {
    if |a| <= |b| {
      ShorterIsWhole(t, n, initialText, textLength, draws, a, b);
    } else {
      ShorterIsWhole(t, n, initialText, textLength, draws, b, a);
    }
  }

  lemma ShorterIsWhole(t: Table, n: nat, initialText: string, textLength: int,
                       draws: nat -> real, a: string, b: string)
    requires IsGeneration(t, n, initialText, textLength, draws, a)
    requires IsGeneration(t, n, initialText, textLength, draws, b)
    requires |a| <= |b|
    ensures a == b
  {
    GenerationsAgree(t, n, initialText, textLength, draws, a, b, |a|);
    assert a == b[..|a|];
    assert |a| < |b| ==> SampledAt(t, n, initialText, draws, b, |a|);
  }

  /** A model that learned nothing returns any seed unchanged. */
  lemma GenerationFromEmptyMap(t: Table, n: nat, initialText: string, textLength: int, draws: nat -> real, text: string)
    requires t == map[]
    requires IsGeneration(t, n, initialText, textLength, draws, text)
    ensures text == initialText
  {
    var k := |initialText|;
    assert |text| > k ==> SampledAt(t, n, initialText, draws, text, k);
  }
}
