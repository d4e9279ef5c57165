# MUSE feature extraction, modelled in Dafny

This project models the WEASEL+MUSE feature-extraction stage of the SFA
time-series classification library: the class `sfa.transformation.MUSE`.
A multivariate sample becomes a sparse histogram ("bag of bigrams") of
symbolic features, in four steps:

- **Word extraction.** For every window length, a lazily fitted quantizer
  turns each variate of each sample into a sequence of integer words.
  A variate shorter than the window gets no words.
- **Bag building.** For every sample and every eligible window length
  (one at least as long as the word length), each visited variate
  contributes:
  - one unigram per word offset;
  - one bigram of the masked word one window earlier and the masked word
    itself, once the offset reaches the window length.

  Every feature key is numbered by the dictionary (`getWord`: a new key
  gets id `size() + 1`) and counted in the sample's bag.
- **Chi-squared filter.** For every class and feature:
  - `presence` is the number of bags holding the feature;
  - `observed` is the number of bags of the class holding it;
  - the class sizes give `expected = classCount / n * presence`;
  - the statistic is `(observed - expected)^2 / expected`.

  A feature's score is the largest statistic that reaches the limit (0 if
  none does). Entries of features scoring below the limit are zeroed in
  place.
- **Compaction** (`remap`). Zero entries are dropped from every bag, and
  the surviving raw ids are renumbered densely through the second id space
  of the dictionary (`getWordChi`).

## Modules

| file | module | contents |
|---|---|---|
| `wrappers.dfy` | `Wrappers` | `Option`, `Result`, `Outcome`, and the two exceptional exits of the source |
| `java_arith.dfy` | `JavaArith` | Java `int` wrap-around, `%`, `<<` on `long`, `&`, the word mask, the even word length |
| `hash_maps.dfy` | `HashMaps` | hppc `get` (absent reads 0), `putOrAdd`, the tally of a sequence, the total of a map |
| `feature_keys.dfy` | `FeatureKeys` | the feature-key datatype, its `w_d_m` string rendering, and the proof that this rendering is injective |
| `muse_types.dfy` | `MuseTypes` | time series, samples, bags, the fitted-quantizer record |
| `dictionary.dfy` | `Dictionaries` | the `Dictionary` class (`dict`, `dictChi`), numberings, compaction |
| `words.dfy` | `WordExtraction` | the specification of `createWords(samples, index)` |
| `bag_builder.dfy` | `BagBuilding` | the keys a sample emits, in order; the dictionary after them; the bag of each sample |
| `chi_squared.dfy` | `ChiSquared` | counting, scoring and zeroing, in place on an array of bags |
| `muse.dfy` | `Muse` | the `Muse` class: constructor, `createWords`, `createBagOfPatterns`, `filterChiSquared` |

How the source's state is represented:

- The bag array is an `array<BagOfBigrams>`, updated in place.
- The quantizers are an `array<Option<Quantizer>>`.
- The dictionary is a class whose two hash maps are `map` fields.

Every loop of the source is a `while`/`for` loop with invariants. Each is
proved against a specification function:
- `WordSlots` for the word slots;
- `SampleKeys`, `AllKeys`, `Register` and `SampleBag` for the bags and the
  dictionary;
- `Presence`, `Observed`, `ClassCount`, `Chi`, `IsScore` and `Zeroed` for
  the filter;
- `IsCompaction` for `remap`.

The lemmas beside each specification function state what the source
promises of it.

Two behaviours of the code worth stating:
- With a non-positive chi-squared limit, a feature with no qualifying
  class keeps score 0. Since `0 < limit` is false, such a feature is
  **not** zeroed. `ChiSquared.Strong` and `ChiSquared.ScoreSurvival`
  state this case.
- The statistic never divides by zero. The code only pairs occurring
  classes with present features, and `ChiSquared.ExpectedPositive`
  proves the expected count of every such pair is positive.

## Model

| member | source | states |
|---|---|---|
| `Muse.Muse.constructor` | src/main/java/sfa/transformation/MUSE.java:60-75 | the configuration is stored, the word length is `maxF + maxF % 2` in Java `int` arithmetic, one unfitted quantizer slot per window length, both id spaces of the dictionary empty |
| `JavaArith.EvenWordLengthIsEven` | src/main/java/sfa/transformation/MUSE.java:67 | the forced word length is even; for `0 <= maxF < Integer.MAX_VALUE` it is the least even number `>= maxF`, for negative `maxF` the greatest even number `<= maxF`, and `Integer.MAX_VALUE` wraps to `Integer.MIN_VALUE` |
| `Muse.Muse.FittedFor` | src/main/java/sfa/transformation/MUSE.java:121-125 | after `createWords` a window always has a quantizer, and an already fitted one is kept, never refitted |
| `Muse.Muse.CreateWords` | src/main/java/sfa/transformation/MUSE.java:118-142 | the quantizer of `index` is fitted if absent and no other window's quantizer changes; the result is `WordSlots` of the fitted quantizer: `NoSamples` on an empty sample array, `TooManySeries` when the variates overflow the slots |
| `Muse.Muse.FillSlots` | src/main/java/sfa/transformation/MUSE.java:127-141 | the nested variate loop fills slot `pos` with the words of the `pos`-th variate visited (or none when shorter than the window), leaves the trailing slots `null`, and fails exactly when a variate is visited past the last slot |
| `WordExtraction.WordSlotsLayout` | src/main/java/sfa/transformation/MUSE.java:128-139 | when every sample has `dims` variates the call succeeds with `|samples| * dims` filled slots, slot `s * dims + d` holding the words of variate `d` of sample `s`, and a variate shorter than the window giving an empty word array |
| `WordExtraction.WordSlotsShape` | src/main/java/sfa/transformation/MUSE.java:128-139 | the call fails exactly on empty input or when there are more variates than `|samples| * samples[0].getDimensions()`; otherwise it has that many slots, a slot being filled exactly when some variate landed in it |
| `WordExtraction.FlattenLength` | src/main/java/sfa/transformation/MUSE.java:130-131 | with `dims` variates per sample the visiting order has `|samples| * dims` variates |
| `WordExtraction.FlattenAt` | src/main/java/sfa/transformation/MUSE.java:129-138 | variate `d` of sample `s` is the one visited at position `s * dims + d` |
| `Muse.Muse.CreateAllWords` | src/main/java/sfa/transformation/MUSE.java:96-110 | result slot `w` is `createWords(samples, w)` for every window, each quantizer fitted once; the call fails exactly when there is a window and the samples are empty or overflow the slots |
| `BagBuilding.WordMask` | src/main/java/sfa/transformation/MUSE.java:158 | the mask `(1L << (usedBits * wordLength)) - 1L`, with the product wrapped to 32 bits and the shift taken modulo 64, is `2^(usedBits * wordLength mod 64) - 1` |
| `BagBuilding.MaskedWordLowBits` | src/main/java/sfa/transformation/MUSE.java:158 | masking keeps exactly the low `usedBits * wordLength` bits of a word (that count modulo 64), so a masked word is below the matching power of two |
| `JavaArith.MaskKeepsLowBits` | src/main/java/sfa/transformation/MUSE.java:158 | `x & ((1L << s) - 1L)` is `x mod 2^(s mod 64)` for a non-negative word |
| `JavaArith.Wrap32KeepsShiftDistance` | src/main/java/sfa/transformation/MUSE.java:158 | the 32-bit overflow of `usedBits * wordLength` never changes the shift distance Java uses |
| `FeatureKeys.ParseRender` | src/main/java/sfa/transformation/MUSE.java:171 | every rendered key, `w_d_m` or `w_d_p_w_d_m`, reads back as the feature it was rendered from |
| `FeatureKeys.RenderInjective` | src/main/java/sfa/transformation/MUSE.java:177-178 | distinct features render to distinct strings, so numbering the datatype numbers exactly what the string dictionary numbers |
| `FeatureKeys.DecimalRoundTrip` | src/main/java/sfa/transformation/MUSE.java:169 | `String.valueOf(n)` of a non-negative `n` is a digit string that reads back as `n` |
| `HashMaps.PutOrAdd` | src/main/java/sfa/transformation/MUSE.java:173 | `putOrAdd(k, put, inc)` adds `k` to the keys, leaves every other entry, sets `put` for a new key and adds `inc` to a present one |
| `HashMaps.TallyCounts` | src/main/java/sfa/transformation/MUSE.java:173 | counting with `putOrAdd(x, 1, 1)` holds exactly the elements seen, each with its number of occurrences |
| `HashMaps.TallyTotal` | src/main/java/sfa/transformation/MUSE.java:173 | the counts so built add up to the number of elements counted |
| `BagBuilding.SeriesKeysMembers` | src/main/java/sfa/transformation/MUSE.java:170-180 | a variate emits exactly the unigrams of its masked words at every offset and the bigrams of masked words `windowLength` apart, all tagged with its window and variate |
| `BagBuilding.SeriesKeysCount` | src/main/java/sfa/transformation/MUSE.java:170-180 | a variate with `len` words emits `len + max(0, len - windowLength)` keys |
| `BagBuilding.WindowKeysMembers` | src/main/java/sfa/transformation/MUSE.java:168-182 | a window emits a key exactly when its variate is one the `d` loop visits and that variate emits it |
| `BagBuilding.SampleKeysMembers` | src/main/java/sfa/transformation/MUSE.java:166-184 | a sample emits a key exactly when its window is eligible (`windowLengths[w] >= wordLength`), its variate is visited and the variate's words yield it; ineligible windows contribute nothing |
| `BagBuilding.WindowKeysCount` | src/main/java/sfa/transformation/MUSE.java:168-182 | a window emits the sum over its visited variates of the per-variate count |
| `BagBuilding.SampleKeysCount` | src/main/java/sfa/transformation/MUSE.java:166-184 | a sample emits the sum over its eligible windows of the per-window count |
| `Dictionaries.LookupOrInsert` | src/main/java/sfa/transformation/MUSE.java:275-285 | the key is in the new map with the returned id, the key set grows by exactly that key, and every old key keeps its id |
| `Dictionaries.LookupOrInsertNumbering` | src/main/java/sfa/transformation/MUSE.java:275-285 | a present key returns its id and changes nothing; a new key gets `size() + 1`; the ids stay pairwise distinct within `1..size()` |
| `BagBuilding.RegisterNumbering` | src/main/java/sfa/transformation/MUSE.java:172-178 | numbering a sequence of keys keeps the dictionary a numbering, keeps every old id, and adds exactly the new keys |
| `BagBuilding.IdsCount` | src/main/java/sfa/transformation/MUSE.java:172-179 | under an injective numbering, a key's id occurs among the ids as often as the key among the keys |
| `BagBuilding.SampleBagCounts` | src/main/java/sfa/transformation/MUSE.java:163-185 | a sample's bag counts each key's id exactly as often as the sample emitted the key, counts nothing else, and its counts add up to the number of keys emitted |
| `BagBuilding.CreatedBagCounts` | src/main/java/sfa/transformation/MUSE.java:162-187 | in the final dictionary, bag `i` carries the label of sample `i`, counts each key of sample `i` by its multiplicity, holds no other id, and its counts add up to `Σ (len + max(0, len - windowLength))` |
| `BagBuilding.TwoSampleKeys` | src/main/java/sfa/transformation/MUSE.java:162-187 | for the samples of `TwoSampleParams`, the first emits the unigrams of words 0, 1, 1 and the bigram (0, 1), the second the unigrams of words 0, 0, 1 and the same bigram, in that order |
| `BagBuilding.TwoSampleBags` | src/main/java/sfa/transformation/MUSE.java:162-187 | for the samples of `TwoSampleParams`, the dictionary numbers the unigram of 0, the unigram of 1 and the bigram 1, 2, 3, and the bags are `{1:1, 2:2, 3:1}` of class 0 and `{1:2, 2:1, 3:1}` of class 1 |
| `BagBuilding.AllKeysRegistered` | src/main/java/sfa/transformation/MUSE.java:162-186 | after the samples below `n` the dictionary is a numbering holding every key each of them emitted |
| `BagBuilding.BagsBuiltExtend` | src/main/java/sfa/transformation/MUSE.java:162-186 | extending the dictionary leaves every earlier bag as it was built, and the new sample's bag joins them |
| `BagBuilding.BagsBuiltStep` | src/main/java/sfa/transformation/MUSE.java:162-186 | one more sample extends the dictionary by its keys without renumbering the keys of earlier bags, so every earlier bag keeps its meaning |
| `Muse.Muse.CreateBagOfPatterns` | src/main/java/sfa/transformation/MUSE.java:147-188 | fails on an empty sample array, leaving the dictionary as it was; otherwise one bag per sample in order, bag `i` with the label of sample `i` counting the ids of the keys sample `i` emits from slot `i * dimensionality`, and the dictionary is the old one after numbering all emitted keys in emission order |
| `Muse.Muse.BuildBags` | src/main/java/sfa/transformation/MUSE.java:162-186 | the sample loop with `j += dimensionality`: the same bags and dictionary, proved through the loop invariant `BagsBuilt` |
| `Muse.Muse.BuildSample` | src/main/java/sfa/transformation/MUSE.java:163-184 | the window loop of one sample numbers the sample's keys in emission order and counts their ids in its bag |
| `Muse.Muse.AddWindow` | src/main/java/sfa/transformation/MUSE.java:167-182 | the variate loop of one eligible window numbers and counts that window's keys |
| `Muse.Muse.AddSeries` | src/main/java/sfa/transformation/MUSE.java:170-181 | the offset loop numbers and counts the unigram of every offset and, from offset `windowLength` on, the bigram |
| `Dictionaries.Dictionary.constructor` | src/main/java/sfa/transformation/MUSE.java:265-268 | both id spaces start empty |
| `Dictionaries.Dictionary.Reset` | src/main/java/sfa/transformation/MUSE.java:270-273 | both id spaces are emptied and the size becomes 0 |
| `Dictionaries.Dictionary.GetWord` | src/main/java/sfa/transformation/MUSE.java:275-285 | returns the id of a known key unchanged, gives a new key the id `size() + 1`, keeps the raw space a numbering and leaves the compacted space alone |
| `Dictionaries.Dictionary.GetWordChi` | src/main/java/sfa/transformation/MUSE.java:287-296 | the same for the compacted space, leaving the raw space alone |
| `Dictionaries.Dictionary.Size` | src/main/java/sfa/transformation/MUSE.java:298-304 | the size of the compacted space once it is non-empty, of the raw space otherwise; 0 exactly when both are empty; in each case the ids handed out are exactly `1..size` |
| `Dictionaries.NumberingIsDense` | src/main/java/sfa/transformation/MUSE.java:281 | the ids of a numbering built by `size() + 1` are exactly `{1, ..., size()}` |
| `Dictionaries.Dictionary.RemapBag` | src/main/java/sfa/transformation/MUSE.java:308-314 | the new map of one bag is its compaction: exactly its positive entries, each re-keyed through `getWordChi` with its count; the compacted space grows by exactly the positive keys |
| `Dictionaries.Dictionary.Remap` | src/main/java/sfa/transformation/MUSE.java:306-316 | every bag becomes its compaction under the final compacted space, with its label; the raw space is unchanged, old compacted ids are kept, and the new ones are exactly the positive keys of the bags |
| `Dictionaries.CompactionShape` | src/main/java/sfa/transformation/MUSE.java:306-316 | a compacted bag holds one entry per positive entry of the original, with positive counts and keys among the compacted ids |
| `Dictionaries.CompactionUnique` | src/main/java/sfa/transformation/MUSE.java:306-316 | under an injective renaming a bag has exactly one compaction, whatever order the hash map is visited in |
| `ChiSquared.CountFeatures` | src/main/java/sfa/transformation/MUSE.java:208-218 | `featureCount(f)` is the number of bags holding `f` with a positive count, `observed(c, f)` the number of such bags of class `c`; a key is present exactly when its count is positive |
| `ChiSquared.CountClasses` | src/main/java/sfa/transformation/MUSE.java:220-224 | the count of a class is its number of bags, and the classes counted are exactly the labels that occur |
| `ChiSquared.ChiStat` | src/main/java/sfa/transformation/MUSE.java:232-235 | the statistic `(observed - expected)^2 / expected` is never negative |
| `ChiSquared.ExpectedPositive` | src/main/java/sfa/transformation/MUSE.java:228-232 | the expected count of an occurring class and a present feature is positive, so the division never divides by zero |
| `ChiSquared.LabelCounted` | src/main/java/sfa/transformation/MUSE.java:220-228 | a class occurs exactly when its count is positive |
| `ChiSquared.ScoreFeatures` | src/main/java/sfa/transformation/MUSE.java:226-241 | the loops end with every feature's score: for a present feature the largest statistic over the classes among those that reach the limit (0 if none), for an absent one 0 |
| `ChiSquared.ScoreUnique` | src/main/java/sfa/transformation/MUSE.java:227-240 | the score is unique, so the order in which the hash maps are visited does not matter |
| `ChiSquared.ScoreSurvival` | src/main/java/sfa/transformation/MUSE.java:236-246 | a score reaches the limit exactly when the feature is strong: the limit is not positive, or the feature is present and some class's statistic reaches the limit |
| `ChiSquared.PresenceCountsHolders` | src/main/java/sfa/transformation/MUSE.java:209-216 | presence counts bags, not occurrences: it is the number of bags whose entry is positive |
| `ChiSquared.PresenceBound` | src/main/java/sfa/transformation/MUSE.java:209-216 | presence never exceeds the number of bags |
| `ChiSquared.ObservedSumsToPresence` | src/main/java/sfa/transformation/MUSE.java:209-216 | each bag holding a feature has exactly one class: summed over the distinct classes, the observed counts give the presence |
| `ChiSquared.ZeroBag` | src/main/java/sfa/transformation/MUSE.java:245-249 | a bag after the zeroing pass has the same keys, an entry being zeroed exactly when its feature's score is below the limit |
| `ChiSquared.ZeroWeakFeatures` | src/main/java/sfa/transformation/MUSE.java:243-250 | every bag in place goes through the zeroing pass and keeps its label |
| `ChiSquared.ZeroingKeepsStrong` | src/main/java/sfa/transformation/MUSE.java:243-250 | with the scores the loops computed, the zeroing pass zeroes exactly the entries of features that are not strong |
| `ChiSquared.ZeroedPositive` | src/main/java/sfa/transformation/MUSE.java:243-250 | after zeroing, a bag's positive entries are its positive entries of strong features, with their counts |
| `ChiSquared.ZeroedBagsKeep` | src/main/java/sfa/transformation/MUSE.java:243-253 | after zeroing, some bag holds a feature exactly when the feature was present and is strong |
| `ChiSquared.SharedFeaturesFiltered` | src/main/java/sfa/transformation/MUSE.java:226-250 | for any two bags of different classes that hold the same features, every statistic is 0, so any positive limit filters every feature out |
| `ChiSquared.SharedFeaturesScenario` | src/main/java/sfa/transformation/MUSE.java:226-250 | the bags `createBagOfPatterns` builds for two one-variate samples of classes 0 and 1 with words `[0, 1, 1]` and `[0, 0, 1]`, window length 2 and mask 3 (`BagBuilding.TwoSampleParams`) lose all three of their features under any positive limit |
| `Muse.Muse.FilterChiSquared` | src/main/java/sfa/transformation/MUSE.java:194-254 | fails on an empty bag array before any change; otherwise the raw space is unchanged, every bag keeps its label and becomes the compaction of its zeroed version, and the compacted ids added are exactly the features still held by some bag after zeroing |

## Left out

- Parallelism. `ParallelFor` and `BLOCKS` are not modelled. `CreateAllWords` runs the window loop in order, and each window writes only its own output slot and its own quantizer, so the order does not affect the result.
- The quantizer's internals (`fitWindowing`, `transformWindowingInt`, binning) are code this model does not see:
  - a fitted quantizer is the record of the arguments it was fitted with;
  - the word transform is a function parameter;
  - the `true` flag of `new SFA(...)` is not represented.
- `usedBits`, the `byte` result of `binlog(alphabetSize)`, is a parameter of `CreateBagOfPatterns`, because `binlog` is outside this core.
- Words are non-negative integers. The sign extension of a negative `int` word when it is masked with a `long` is not modelled.
- The chi-squared statistic is computed in exact rationals (`real`). `double` rounding and its effect on ties with the limit are not modelled.
- Hash-map iteration order is not modelled: the loops visit keys in an arbitrary order. `ChiSquared.ScoreUnique` and `Dictionaries.CompactionUnique` show the results do not depend on that order, but the compacted ids themselves do, and the model states them only up to that order (`IsCompaction`).
- The `classFrequencies` map (MUSE.java:196–200) is never read and is not modelled.
- Pair keys:
  - the `observed` key `label << 32 | word.key` is the pair `(label, key)`. The two agree when every id is positive and below 2^31 and every label lies within the Java `int` range. The shift drops the label's high 32 bits, so in the source two labels equal modulo 2^32 (0 and 2^32, say) share one `observed` counter. That collision is not modelled;
  - labels are the `longValue()` of the `Double` label, and a `null` label is not modelled.
- Feature keys are the datatype `FeatureKey`, not strings. `FeatureKeys.RenderInjective` shows the string keys number the same features.
- Integer width beyond the word length and the mask is not modelled. The model uses unbounded integers for the 32-bit overflow of:
  - the slot count `mtsSamples.length * getDimensions()` (MUSE.java:128);
  - the slot index `j`;
  - the ids and the counts.
- Muse.Muse.CreateBagOfPatterns: requires every slot the loops read to exist and be non-`null`, and every eligible window length to be non-negative. Nothing is asked of the word arrays when no slot is read, for example with `dimensionality <= 0`. The source throws (`ArrayIndexOutOfBounds` or `NullPointerException`) outside these conditions instead of returning a value, with one exception the requires also excludes: an eligible window with `wordLength <= windowLengths[w] < 0` returns normally when every variate it visits has an empty word array, because the offset loop (MUSE.java:170) never runs; when such a variate has a word, the bigram index `offset - windowLengths[w]` (MUSE.java:177) passes the end of its word array by the last offset at the latest, and the source throws.
- Muse.Muse.CreateWords: fitting on an empty sample array is assumed to succeed, so the error comes from the array allocation, as in the source. An exception thrown inside `fitWindowing` is not modelled.
- Aliasing of `BagOfBigrams` objects: bags are values in an array. Two array slots holding the same object, which the source would update together, are not modelled.
- `windowLengths` is the caller's `int[]` in the source and could be changed by the caller; the model takes it as an immutable sequence.
- An exception in a worker thread of `ParallelFor` is not modelled.
