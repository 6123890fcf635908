# Character-level language model

This project models `LanguageModel`, a character-level n-gram text model.
The model keeps a map from *windows* (strings of `windowLength` characters)
to lists of `CharData` records `{chr, count, p, cp}`. Each list holds the
characters seen right after its window.

- **Training** slides the window over a corpus. It records each following
  character in the window's list. A list keeps its characters in the order
  in which they first followed the window. Once the corpus is consumed,
  the probabilities of every list are derived in place: `p` is the count
  over the list's total, and `cp` is the running sum of `p`.
- **Sampling** takes one draw `r` and returns the character of the first
  record whose `cp` reaches `r`. When no record does, it returns a space.
- **Generation** extends a seed text. At each step it samples from the list
  of the text's trailing window. It stops at an unknown window, or once the
  text is longer than the requested length plus five.

The Dafny project has five modules:

| file | module | contents |
|---|---|---|
| `chardata.dfy` | `CharData` | the record datatype, the pure list operations, and the class `CharList` that holds one window's records and updates them in place |
| `probabilities.dfy` | `Probabilities` | the specification of the probability pass (`Finalize`, `Finalized`) and of sampling (`FirstReaching`, `Sample`), with their properties |
| `training.dfy` | `Training` | the value of the map after training (`Accumulate`, `Trained`, `FinalizeAll`), and independent counting definitions (`Contexts`, `Successions`, `Followers`, `FirstOccurrences`) it is proved against |
| `generation.dfy` | `Generation` | what a generation run returns (`IsGeneration`), and its determinism |
| `language_model.dfy` | `LanguageModel` | the class `LanguageModel`, with the map as a field and the imperative methods `Train`, `CalculateProbabilities`, `GetRandomChar` and `Generate` |

The class keeps two ghost fields.

- `model` is the map as a value. `Coupled()` ties each list object in the
  map to `model`.
- `owner` records which window each list object belongs to. It implies
  that distinct windows never share a list.

Every method is proved against the pure functions. The pure functions'
properties are proved as lemmas.

Probabilities are exact `real`s. Random draws are parameters:

- `GetRandomChar` takes its draw `r`.
- `Generate` takes the stream `draws` and uses `draws(i)` for the `i`-th
  character it appends.

## Model

| member | source | states |
|---|---|---|
| LanguageModel.LanguageModel.constructor | LanguageModel.java:19-23 | a new model has the given window length, an empty map and no lists, so it can be trained at once |
| LanguageModel.LanguageModel.Train | LanguageModel.java:35-57 | training adds to the existing map. The new map is the old one with every corpus character recorded under the window before it, then every list's probabilities derived. Keys stay windows of `windowLength` characters and lists stay well formed. Only newly allocated lists are added |
| LanguageModel.LanguageModel.FirstWindow | LanguageModel.java:36-41 | the first window is the first `windowLength` characters of the corpus, or the whole corpus when it is shorter |
| LanguageModel.LanguageModel.RecordFrom | LanguageModel.java:42-53 | the training loop turns the map into `Trained` of its old value: every character after the first window is recorded under the `windowLength` characters before it |
| LanguageModel.LanguageModel.RecordAt | LanguageModel.java:43-52 | one iteration records character `i` under the window `corpus[i-n..i]`, and the slid window `substring(1) + c` is `corpus[i+1-n..i+1]` |
| LanguageModel.LanguageModel.RecordInList | LanguageModel.java:44-51 | the map's value becomes `Record` of its old value: the window's list gains one occurrence of `c`, and no other list changes |
| LanguageModel.LanguageModel.ListFor | LanguageModel.java:45-50 | returns the window's list, or creates an empty list and inserts it when the window is not a key. No other entry changes |
| LanguageModel.LanguageModel.CalculateAll | LanguageModel.java:54-56 | visiting the lists in any order derives the probabilities of every list (`FinalizeAll`). Keys and list objects are kept |
| LanguageModel.LanguageModel.CalculateOne | LanguageModel.java:55 | deriving the probabilities of one list changes that window's records to `Finalized` and leaves every other list alone |
| LanguageModel.LanguageModel.CalculateProbabilities | LanguageModel.java:61-73 | the list's records become `Finalized` of the old ones: the first pass sums the counts, and the in-place walk sets `p` to count over total and `cp` to the running sum |
| LanguageModel.LanguageModel.GetRandomChar | LanguageModel.java:76-84 | returns `Sample` of the list: the character of the first record, in list order, with `cp >= r`, and a space when every `cp` is below `r` |
| LanguageModel.LanguageModel.Generate | LanguageModel.java:93-107 | the result satisfies `IsGeneration`: a short seed comes back unchanged, the seed is a prefix, the length bound holds, an early stop is at an unknown window, each appended character is sampled from the window before it, and the map is not modified |
| LanguageModel.TrainThenGenerate | LanguageModel.java:150-158 | a new model trained on a corpus and then asked to generate returns a generation from the map of a freshly trained model, `FinalizeAll(Trained(map[], corpus, windowLength))` |
| CharData.CharList.constructor | LanguageModel.java:48 | a new list is empty |
| CharData.CharList.Update | LanguageModel.java:51 | the list becomes `Updated(old, c)` |
| CharData.Updated | LanguageModel.java:51 | the list after one more occurrence of `c`. Its properties are `UpdatedCounts`, `UpdatedSum`, `UpdatedChars` and `UpdatedWellFormed` |
| CharData.IndexOf | LanguageModel.java:51 | the index of the first record holding `c`, or -1 exactly when no record holds it |
| CharData.UpdatedCounts | LanguageModel.java:51 | an update raises the count of `c` by one and leaves every other character's count unchanged |
| CharData.UpdatedSum | LanguageModel.java:51 | an update raises a list's total by one |
| CharData.UpdatedChars | LanguageModel.java:51 | records keep their places, and a character seen for the first time is appended last |
| CharData.UpdatedWellFormed | LanguageModel.java:51 | an update keeps counts positive and characters distinct |
| CharData.WellFormedTotalPositive | LanguageModel.java:63-67 | a non-empty well-formed list has a positive total, so the division at line 69 is defined |
| Probabilities.Finalize | LanguageModel.java:68-72 | the walk keeps length, characters and counts, and sets each `p` to count over total |
| Probabilities.WalkedIsFinalize | LanguageModel.java:68-72 | a list whose every record is as the walk leaves it (`p` = count/total, `cp` = previous `cp` + `p`) equals `Finalize` |
| Probabilities.Finalized | LanguageModel.java:61-73 | deriving from the list's own total keeps length, characters, counts and well-formedness |
| Probabilities.FinalizeRunningSum | LanguageModel.java:70-71 | each `cp` is the previous `cp` (0 for the first record) plus its own `p` |
| Probabilities.FinalizeCumulative | LanguageModel.java:65-72 | the `cp` of record `i` is the sum of the first `i+1` counts over the total |
| Probabilities.FinalizedMonotone | LanguageModel.java:68-72 | `cp` never decreases along the list |
| Probabilities.FinalizedBounds | LanguageModel.java:68-72 | every `p` and `cp` lies in [0, 1], and the last `cp` is exactly 1 |
| Probabilities.SumPIsCp | LanguageModel.java:68-72 | each `cp` is the sum of the `p` values up to and including its record |
| Probabilities.FinalizedSumIsOne | LanguageModel.java:68-72 | the `p` values of a counted list sum to exactly 1 |
| Probabilities.FinalizeByCounts | LanguageModel.java:61-72 | the walk reads only characters and counts, never the old `p` or `cp` |
| Probabilities.FinalizedIdempotent | LanguageModel.java:61-72 | deriving the probabilities a second time changes nothing |
| Probabilities.FirstReaching | LanguageModel.java:78-82 | the first index whose `cp` reaches `r`: every earlier `cp` is below `r`. The result is the list length when none reaches it |
| Probabilities.Sample | LanguageModel.java:76-84 | the sampled character is that of the first record reaching `r`, or a space when none does |
| Probabilities.SampleNeverFallsBack | LanguageModel.java:78-83 | on a counted list with derived probabilities, every draw `r <= 1` is reached by some record, so the space fallback is not taken |
| Probabilities.SampleChoosesInterval | LanguageModel.java:77-82 | draw `r` selects record `i` exactly when `r` lies in (prefix total before `i`, prefix total through `i`] over the list total, in both directions |
| Training.Record | LanguageModel.java:45-51 | the map after `c` follows window `w`: the list of `w` is created empty when missing, then updated. `RecordInList` and `TotalOverRecord` state its effect |
| Training.Accumulate | LanguageModel.java:42-53 | the fold of `Record` over the corpus positions after the first window. It is characterised by `AccumulateCountsExact`, `AccumulateSumsExact`, `AccumulateKeysOccur`, `AccumulateOrder` and `AccumulateTotal` |
| Training.Trained | LanguageModel.java:39-53 | the map after the whole corpus has been read. `FreshModelTrained`, `TrainedTotal` and `TrainedShortCorpus` state what it holds |
| Training.FinalizeAll | LanguageModel.java:54-56 | every list with its probabilities derived. `CalculateAll` is proved to produce it, and `FinalizeAllKeepsShape` and `FinalizedKeepsCounts` state what it keeps |
| Training.SlideWindow | LanguageModel.java:52 | `substring(1) + c` on the window `corpus[i-n..i]` gives the window `corpus[i+1-n..i+1]` |
| Training.AccumulateStep | LanguageModel.java:42-53 | recording character `i` under its window extends the fold over the corpus by one position |
| Training.TrainedShortCorpus | LanguageModel.java:39-42 | training on a corpus no longer than the window leaves the map unchanged |
| Training.AccumulateKeysAreWindows | LanguageModel.java:45-52 | every key added by training has exactly `n` characters |
| Training.AccumulateWellFormed | LanguageModel.java:42-53 | training keeps every list well formed |
| Training.AccumulateCountsExact | LanguageModel.java:42-53 | from an empty map, the count of `c` in the list of `w` is the number of positions where `c` follows `w` |
| Training.AccumulateSumsExact | LanguageModel.java:42-53 | from an empty map, the counts in the list of `w` add up to the number of positions where `w` is followed by a character |
| Training.AccumulateKeysOccur | LanguageModel.java:45-50 | from an empty map, a window is a key exactly when some character followed it |
| Training.UpdatedKeepsOrder | LanguageModel.java:51 | updating a list that is in first-occurrence order of `f` with `c` gives first-occurrence order of `f + [c]` |
| Training.OrderStep | LanguageModel.java:51 | recording under any window keeps every list in first-occurrence order of its followers |
| Training.AccumulateOrder | LanguageModel.java:42-53 | from an empty map, each list holds the followers of its window in first-occurrence order |
| Training.TotalOverRecord | LanguageModel.java:51 | recording one character raises the total over all lists by one |
| Training.AccumulateTotal | LanguageModel.java:42-53 | from an empty map, the counts over all windows number the characters read after the first full window |
| Training.TrainedTotal | LanguageModel.java:42-53 | after training a fresh model, the counts over all windows add up to `|corpus| - windowLength` |
| Training.FinalizeOneMore | LanguageModel.java:54-56 | deriving one more pending list extends the set of lists with derived probabilities |
| Training.FinalizedNothingPending | LanguageModel.java:54-56 | with no list pending, the map is `FinalizeAll` of the map before the pass |
| Training.FinalizeAllKeepsShape | LanguageModel.java:54-56 | the probability pass keeps keys windows and lists well formed |
| Training.WellFormedFinalizable | LanguageModel.java:54-56 | every list in a well-formed map is empty or has a positive total |
| Training.FinalizedKeepsCounts | LanguageModel.java:61-72 | deriving probabilities keeps each character's count, the list total and the character order |
| Training.FreshModelTrained | LanguageModel.java:35-57 | after training a fresh model: keys are exactly the windows followed by a character and have `windowLength` characters; counts and totals are exact; lists are in first-occurrence order and well formed |
| Generation.IsGeneration | LanguageModel.java:93-107 | what one run of generation may return. `Generate` is proved to return such a text, and `GenerationDeterministic` shows there is exactly one |
| Generation.SampledStep | LanguageModel.java:103-104 | appending the sample of the trailing window extends the generated text by one correctly sampled position |
| Generation.GenerationsAgree | LanguageModel.java:98-106 | two results of generating from the same inputs agree on every position both have |
| Generation.GenerationDeterministic | LanguageModel.java:93-107 | the same map, seed, length and draws admit exactly one result |
| Generation.GenerationFromEmptyMap | LanguageModel.java:99-102 | a model that learned nothing returns the seed unchanged |

## Left out

- Reading the corpus from a file with `In` (LanguageModel.java:38-43) is I/O. `Train` takes the corpus as a string.
- `java.util.Random` and the seeding constructors (LanguageModel.java:14, 19-31) are replaced by draw parameters. Only the window length of the constructors is modelled. Reproducibility for a fixed seed is stated as determinism in the draws instead (`GenerationDeterministic`).
- Floating-point rounding of `p` and `cp` is left out: they are exact reals. So the last `cp` is exactly 1, and the space fallback of `getRandomChar` is reached only by draws above 1.
- `toString` (LanguageModel.java:110-117) is display only. Of `main` (LanguageModel.java:119-159) only the construct, train and generate sequence is modelled, as `TrainThenGenerate`. Argument parsing, the choice between the two constructors, and printing are left out.
- The iteration order of `HashMap.values()` at LanguageModel.java:54 is unspecified. `CalculateAll` visits the keys in an arbitrary order, and its result does not depend on that order.
- `List.java` and `CharData.java` are not part of this model. `CharList.Update` increments the first record holding the character in place, or appends a new record with count 1 at the END of the list. Where a new record goes is an assumption: the calls at LanguageModel.java:48-51 do not show it. The model appends new records at the end, so that each list is in first-occurrence order. The commented-out check at LanguageModel.java:121-125 feeds "committee " to `update` back to front. That would give first-occurrence order only if `List.update` inserted new records at the FRONT. The list order decides every `cp`, and so which character each draw picks. If the real `List` inserts at the front, each list is in the reverse order of the one modelled here.
- Characters are Unicode scalar values (a Dafny `char`), while a Java `char` is a UTF-16 code unit. On text outside the Basic Multilingual Plane, the source counts windows in code units: a window can split a surrogate pair, and a lone surrogate can be recorded as a follower or be part of a key. The model cannot represent such text, so on it the windows and lists differ from the source's.
- LanguageModel.LanguageModel.constructor: requires `windowLength >= 1`. The source does not check this, and with 0 the window update `substring(1)` at line 52 throws.
- LanguageModel.LanguageModel.Generate: `textLength` is an unbounded integer, so the 32-bit overflow of `textLength + 5` for lengths near the `int` maximum is not modelled.
- LanguageModel.LanguageModel.CalculateProbabilities: requires a list that is empty or has a positive total. A non-empty list with total 0 would give `p = count / 0` in the source. Every list in the map has a positive total, so this case does not arise.
- Counts are unbounded naturals, so 32-bit overflow of `count` and `charCount` is not modelled.
