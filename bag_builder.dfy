/** What `createBagOfPatterns` computes.  For each sample, and within it for
    each eligible window (`windowLengths[w] >= wordLength`), each variate
    `d` and each offset of that variate's words, in this order, the builder
    emits the unigram of the masked word and, once `offset - windowLength`
    is not negative, the bigram of the masked word one window earlier with
    the masked word itself.  Every emitted key is numbered through the
    dictionary and counted in the sample's bag. */
module BagBuilding {
  import opened Wrappers
  import opened JavaArith
  import opened FeatureKeys
  import opened HashMaps
  import opened MuseTypes
  import opened Dictionaries
  import opened WordExtraction

  /** `(byte) binlog(alphabetSize)`: the bits per symbol, a Java `byte`. */
  type Int8 = x: int | -128 <= x < 128

  /** What stays the same over one call: the word arrays `words[w][slot]`,
      the window lengths, the word length, the number of variates per
      sample and the mask. */
  datatype BagParams = BagParams(
    words: seq<seq<Slot>>,
    windowLengths: seq<int>,
    wordLength: int,
    dimensionality: int,
    mask: nat)
  {
    /** Window `w` takes part: `windowLengths[w] >= wordLength`. */
    predicate Eligible(w: nat) {
      w < |windowLengths| && windowLengths[w] >= wordLength
    }

    /** An eligible window is never negative, so `offset - windowLength`
        never indexes past the current offset. */
    predicate EligibleWindowsNonNegative() {
      forall w :: 0 <= w < |windowLengths| && windowLengths[w] >= wordLength ==> windowLengths[w] >= 0
    }

    /** The number of variates the `d` loop visits. */
    function Dims(): nat {
      if dimensionality > 0 then dimensionality else 0
    }

    /** Every slot the loops read for the sample starting at slot `j` exists
        and is filled: `words[w][j + d]` for each eligible window `w` and each
        visited variate `d`.  The source throws otherwise. */
    ghost predicate SlotsAt(j: int) {
      forall w: nat :: Eligible(w) ==> forall p :: j <= p < j + Dims() ==> Filled(w, p)
    }

    /** Slot `p` of window `w` exists and is not `null`. */
    predicate Filled(w: nat, p: int) {
      w < |words| && 0 <= p < |words[w]| && words[w][p].Some?
    }

    /** The slots of `n` samples of `dimensionality` variates each are there:
        the first `n * dimensionality` of every eligible window.  Nothing is
        asked of `words` when no slot is read (`n == 0` or no variate). */
    ghost predicate HasSlots(n: nat) {
      forall w: nat :: Eligible(w) ==> forall p :: 0 <= p < n * Dims() ==> Filled(w, p)
    }

    /** The first slot of sample `i`: `j = i * dimensionality`. */
    function Start(i: nat): int {
      i * dimensionality
    }

    /** `words[w][j + d]`, where `j` is the first slot of the sample; a
        missing slot reads as no words. */
    function WordsAt(w: nat, j: int, d: nat): seq<nat> {
      var p := j + d;
      if w < |words| && 0 <= p < |words[w]| && words[w][p].Some? then words[w][p].value else []
    }
  }

  /** The word mask `(1L << (usedBits * wordLength)) - 1L`, the product taken
      in 32 bits: all ones in the low `usedBits * wordLength` bits, the
      shift distance taken modulo 64 as Java does. */
  function WordMask(usedBits: Int8, wordLength: Int32): (mask: nat)
    ensures mask == Pow2(usedBits * wordLength % 64) - 1
  {
    MaskValue(Wrap32(usedBits * wordLength));
    Wrap32KeepsShiftDistance(usedBits * wordLength);
    Mask(Wrap32(usedBits * wordLength))
  }

  /** The keys emitted at `offset`: the unigram, then the bigram when
      `offset - windowLength >= 0`. */
  function StepKeys(w: nat, d: nat, ws: seq<nat>, windowLength: nat, mask: nat, offset: nat): seq<FeatureKey>
    requires offset < |ws|
  {
    var word := Uni(w, d, And(ws[offset], mask));
    if offset - windowLength >= 0 then
      [word, Bi(w, d, And(ws[offset - windowLength], mask), And(ws[offset], mask))]
    else [word]
  }

  /** The keys emitted at the offsets below `n` of one variate's words. */
  function SeriesKeys(w: nat, d: nat, ws: seq<nat>, windowLength: nat, mask: nat, n: nat): seq<FeatureKey>
    requires n <= |ws|
  {
    if n == 0 then []
    else SeriesKeys(w, d, ws, windowLength, mask, n - 1) + StepKeys(w, d, ws, windowLength, mask, n - 1)
  }

  /** The keys of the sample starting at slot `j` for window `w`, variates below `dCount`. */
  function WindowKeys(P: BagParams, j: int, w: nat, dCount: nat): seq<FeatureKey>
    requires P.EligibleWindowsNonNegative() && P.Eligible(w)
  {
    if dCount == 0 then []
    else
      var ws := P.WordsAt(w, j, dCount - 1);
      WindowKeys(P, j, w, dCount - 1) + SeriesKeys(w, dCount - 1, ws, P.windowLengths[w], P.mask, |ws|)
  }

  /** The keys of the sample starting at slot `j` for the windows below `wCount`. */
  function SampleKeysUpTo(P: BagParams, j: int, wCount: nat): seq<FeatureKey>
    requires P.EligibleWindowsNonNegative() && wCount <= |P.windowLengths|
  {
    if wCount == 0 then []
    else
      var w := wCount - 1;
      SampleKeysUpTo(P, j, w) + (if P.Eligible(w) then WindowKeys(P, j, w, P.Dims()) else [])
  }

  /** All keys the sample starting at slot `j` emits, in emission order. */
  function SampleKeys(P: BagParams, j: int): seq<FeatureKey>
    requires P.EligibleWindowsNonNegative()
  {
    SampleKeysUpTo(P, j, |P.windowLengths|)
  }

  /** The keys of the samples below `n`, in emission order; sample `i`
      starts at slot `P.Start(i)`. */
  function AllKeys(P: BagParams, n: nat): seq<FeatureKey>
    requires P.EligibleWindowsNonNegative()
  {
    if n == 0 then [] else AllKeys(P, n - 1) + SampleKeys(P, P.Start(n - 1))
  }

  /** The dictionary after `getWord` on each key of `keys`, in order. */
  function Register(dict: map<FeatureKey, int>, keys: seq<FeatureKey>): map<FeatureKey, int> {
    if keys == [] then dict else Insert(Register(dict, keys[..|keys| - 1]), keys[|keys| - 1])
  }

  /** The ids of `keys` in `dict`. */
  function Ids(keys: seq<FeatureKey>, dict: map<FeatureKey, int>): (r: seq<int>)
    ensures |r| == |keys|
  {
    seq(|keys|, i requires 0 <= i < |keys| => Get(dict, keys[i]))
  }

  /** The bag of the sample starting at slot `j` once every key is numbered by `dict`. */
  function SampleBag(P: BagParams, j: int, dict: map<FeatureKey, int>, classLabel: int): BagOfBigrams
    requires P.EligibleWindowsNonNegative()
  {
    BagOfBigrams(Tally(Ids(SampleKeys(P, j), dict)), classLabel)
  }

  /** The number of counts a variate with `len` words adds: one unigram per
      offset, one bigram per offset from `windowLength` on. */
  function PairCount(len: nat, windowLength: nat): nat {
    len + (if len > windowLength then len - windowLength else 0)
  }

  /** `PairCount` summed over the variates below `dCount` of window `w`. */
  function WindowCount(P: BagParams, j: int, w: nat, dCount: nat): nat
    requires P.EligibleWindowsNonNegative() && P.Eligible(w)
  {
    if dCount == 0 then 0
    else WindowCount(P, j, w, dCount - 1) + PairCount(|P.WordsAt(w, j, dCount - 1)|, P.windowLengths[w])
  }

  /** `WindowCount` summed over the eligible windows below `wCount`. */
  function SampleCount(P: BagParams, j: int, wCount: nat): nat
    requires P.EligibleWindowsNonNegative() && wCount <= |P.windowLengths|
  {
    if wCount == 0 then 0
    else SampleCount(P, j, wCount - 1) + (if P.Eligible(wCount - 1) then WindowCount(P, j, wCount - 1, P.Dims()) else 0)
  }

  // ---------------------------------------------------------------------
  // The mask

  /** `MaskKeepsLowBits` for the word mask: the 32-bit product does not move
      the shift distance, so masking keeps exactly the low
      `usedBits * wordLength` bits of a word (that count taken modulo 64). */
  lemma MaskedWordLowBits(x: nat, usedBits: Int8, wordLength: Int32)
    ensures And(x, WordMask(usedBits, wordLength)) == x % Pow2(usedBits * wordLength % 64)
    ensures And(x, WordMask(usedBits, wordLength)) < Pow2(usedBits * wordLength % 64)
    ensures 0 <= usedBits * wordLength < 64 ==>
              And(x, WordMask(usedBits, wordLength)) == x % Pow2(usedBits * wordLength)
  {
    MaskOfDistance(x, usedBits * wordLength, WordMask(usedBits, wordLength));
  }

  /** `MaskKeepsLowBits` for any mask equal to `(1L << bits) - 1L`. */
  lemma MaskOfDistance(x: nat, bits: int, mask: nat)
    requires mask == Pow2(bits % 64) - 1
    ensures And(x, mask) == x % Pow2(bits % 64) < Pow2(bits % 64)
    ensures 0 <= bits < 64 ==> And(x, mask) == x % Pow2(bits)
  {
    if 0 <= bits < 64 {
      assert bits % 64 == bits;
    }
    MaskKeepsLowBits(x, bits);
  }

  // ---------------------------------------------------------------------
  // Which keys a variate emits

  lemma {:induction false} SeriesKeysCount(w: nat, d: nat, ws: seq<nat>, windowLength: nat, mask: nat, n: nat)
    requires n <= |ws|
    ensures |SeriesKeys(w, d, ws, windowLength, mask, n)| == PairCount(n, windowLength)
  {
    if n > 0 {
      SeriesKeysCount(w, d, ws, windowLength, mask, n - 1);
    }
  }

  /** A variate's keys are its unigrams at every offset and its bigrams of
      the words `windowLength` apart, all tagged with its window and variate. */
  lemma {:induction false} SeriesKeysMembers(w: nat, d: nat, ws: seq<nat>, windowLength: nat, mask: nat, n: nat, k: FeatureKey)
    requires n <= |ws|
    ensures k in SeriesKeys(w, d, ws, windowLength, mask, n) <==>
              k.w == w && k.d == d &&
              match k
              case Uni(_, _, m) => exists o :: 0 <= o < n && And(ws[o], mask) == m
              case Bi(_, _, p, m) =>
                exists o :: windowLength <= o < n && And(ws[o - windowLength], mask) == p && And(ws[o], mask) == m
  {
    if n > 0 {
      var o := n - 1;
      SeriesKeysMembers(w, d, ws, windowLength, mask, o, k);
      StepKeysMembers(w, d, ws, windowLength, mask, o, k);
      assert k in SeriesKeys(w, d, ws, windowLength, mask, n) <==>
               k in SeriesKeys(w, d, ws, windowLength, mask, o) || k in StepKeys(w, d, ws, windowLength, mask, o);
      match k
      case Uni(_, _, m) =>
        if And(ws[o], mask) == m && k.w == w && k.d == d {
          assert 0 <= o < n && And(ws[o], mask) == m;
        }
      case Bi(_, _, p, m) =>
        if windowLength <= o && And(ws[o - windowLength], mask) == p && And(ws[o], mask) == m && k.w == w && k.d == d {
          assert windowLength <= o < n && And(ws[o - windowLength], mask) == p && And(ws[o], mask) == m;
        }
    }
  }

  /** The keys emitted at one offset. */
  lemma StepKeysMembers(w: nat, d: nat, ws: seq<nat>, windowLength: nat, mask: nat, o: nat, k: FeatureKey)
    requires o < |ws|
    ensures k in StepKeys(w, d, ws, windowLength, mask, o) <==>
              k.w == w && k.d == d &&
              match k
              case Uni(_, _, m) => And(ws[o], mask) == m
              case Bi(_, _, p, m) => windowLength <= o && And(ws[o - windowLength], mask) == p && And(ws[o], mask) == m
  {
  }

  // ---------------------------------------------------------------------
  // Which keys a sample emits

  lemma {:induction false} WindowKeysMembers(P: BagParams, j: int, w: nat, dCount: nat, k: FeatureKey)
    requires P.EligibleWindowsNonNegative() && P.Eligible(w)
    ensures k in WindowKeys(P, j, w, dCount) <==>
              k.d < dCount && k in SeriesKeys(w, k.d, P.WordsAt(w, j, k.d), P.windowLengths[w], P.mask, |P.WordsAt(w, j, k.d)|)
  {
    if dCount > 0 {
      WindowKeysMembers(P, j, w, dCount - 1, k);
      var ws := P.WordsAt(w, j, dCount - 1);
      SeriesKeysMembers(w, dCount - 1, ws, P.windowLengths[w], P.mask, |ws|, k);
      var ws' := P.WordsAt(w, j, k.d);
      SeriesKeysMembers(w, k.d, ws', P.windowLengths[w], P.mask, |ws'|, k);
    }
  }

  /** The keys of window `w` are tagged with `w`. */
  lemma WindowKeysTagged(P: BagParams, j: int, w: nat, k: FeatureKey)
    requires P.EligibleWindowsNonNegative() && P.Eligible(w)
    ensures k in WindowKeys(P, j, w, P.Dims()) ==> k.w == w
  {
    WindowKeysMembers(P, j, w, P.Dims(), k);
    var ws := P.WordsAt(w, j, k.d);
    SeriesKeysMembers(w, k.d, ws, P.windowLengths[w], P.mask, |ws|, k);
  }

  lemma {:induction false} SampleKeysUpToMembers(P: BagParams, j: int, wCount: nat, k: FeatureKey)
    requires P.EligibleWindowsNonNegative() && wCount <= |P.windowLengths|
    ensures k in SampleKeysUpTo(P, j, wCount) <==>
              k.w < wCount && P.Eligible(k.w) && k in WindowKeys(P, j, k.w, P.Dims())
  {
    if wCount > 0 {
      var w := wCount - 1;
      SampleKeysUpToMembers(P, j, w, k);
      if P.Eligible(w) {
        WindowKeysTagged(P, j, w, k);
      }
      assert k in SampleKeysUpTo(P, j, wCount) <==>
               k in SampleKeysUpTo(P, j, w) || (P.Eligible(w) && k in WindowKeys(P, j, w, P.Dims()));
    }
  }

  /** A key is emitted for a sample exactly when its window is eligible, its
      variate is one the loop visits and the variate's words contain it:
      windows shorter than the word length contribute nothing. */
  lemma SampleKeysMembers(P: BagParams, j: int, k: FeatureKey)
    requires P.EligibleWindowsNonNegative()
    ensures k in SampleKeys(P, j) <==>
              P.Eligible(k.w) && k.d < P.Dims() &&
              var ws := P.WordsAt(k.w, j, k.d);
              k in SeriesKeys(k.w, k.d, ws, P.windowLengths[k.w], P.mask, |ws|)
  {
    SampleKeysUpToMembers(P, j, |P.windowLengths|, k);
    if P.Eligible(k.w) {
      WindowKeysMembers(P, j, k.w, P.Dims(), k);
    }
  }

  /** How many keys a sample emits: `len + max(0, len - windowLength)` for
      each visited variate of each eligible window. */
  lemma {:induction false} WindowKeysCount(P: BagParams, j: int, w: nat, dCount: nat)
    requires P.EligibleWindowsNonNegative() && P.Eligible(w)
    ensures |WindowKeys(P, j, w, dCount)| == WindowCount(P, j, w, dCount)
  {
    if dCount > 0 {
      WindowKeysCount(P, j, w, dCount - 1);
      var ws := P.WordsAt(w, j, dCount - 1);
      SeriesKeysCount(w, dCount - 1, ws, P.windowLengths[w], P.mask, |ws|);
      assert WindowKeys(P, j, w, dCount)
          == WindowKeys(P, j, w, dCount - 1) + SeriesKeys(w, dCount - 1, ws, P.windowLengths[w], P.mask, |ws|);
    }
  }

  lemma {:induction false} SampleKeysCount(P: BagParams, j: int, wCount: nat)
    requires P.EligibleWindowsNonNegative() && wCount <= |P.windowLengths|
    ensures |SampleKeysUpTo(P, j, wCount)| == SampleCount(P, j, wCount)
  {
    if wCount > 0 {
      SampleKeysCount(P, j, wCount - 1);
      if P.Eligible(wCount - 1) {
        WindowKeysCount(P, j, wCount - 1, P.Dims());
      }
    }
  }

  // ---------------------------------------------------------------------
  // Numbering and counting

  /** Registering keys keeps a numbering, keeps every old id, and adds
      exactly the new keys. */
  lemma {:induction false} RegisterNumbering(dict: map<FeatureKey, int>, keys: seq<FeatureKey>)
    requires IsNumbering(dict)
    ensures IsNumbering(Register(dict, keys))
    ensures Extends(Register(dict, keys), dict)
    ensures forall k :: k in Register(dict, keys) <==> k in dict || k in keys
  {
    if keys != [] {
      var init := keys[..|keys| - 1];
      RegisterNumbering(dict, init);
      LookupOrInsertNumbering(Register(dict, init), keys[|keys| - 1]);
      assert Register(dict, keys) == LookupOrInsert(Register(dict, init), keys[|keys| - 1]).0;
      assert forall k :: k in keys <==> k in init || k == keys[|keys| - 1];
    }
  }

  /** Registering more keys does not change the ids of keys already there. */
  lemma IdsStable(keys: seq<FeatureKey>, small: map<FeatureKey, int>, big: map<FeatureKey, int>)
    requires forall k :: k in keys ==> k in small
    requires Extends(big, small)
    ensures Ids(keys, big) == Ids(keys, small)
  {
  }

  /** Under an injective numbering that holds every key, the bag counts a
      key's id exactly as often as the key was emitted. */
  lemma {:induction false} IdsCount(keys: seq<FeatureKey>, dict: map<FeatureKey, int>, k: FeatureKey)
    requires Injective(dict)
    requires k in dict && forall k' :: k' in keys ==> k' in dict
    ensures multiset(Ids(keys, dict))[dict[k]] == multiset(keys)[k]
  {
    if keys != [] {
      var init, last := keys[..|keys| - 1], keys[|keys| - 1];
      assert keys == init + [last];
      assert Ids(keys, dict) == Ids(init, dict) + [dict[last]];
      IdsCount(init, dict, k);
    }
  }

  /** The counts of a sample's bag: a feature's count is the number of times
      the sample emitted it, the features counted are exactly the keys it
      emitted, and the counts add up to the number of keys emitted. */
  lemma SampleBagCounts(P: BagParams, j: int, dict: map<FeatureKey, int>, classLabel: int)
    requires P.EligibleWindowsNonNegative() && IsNumbering(dict)
    requires forall k :: k in SampleKeys(P, j) ==> k in dict
    ensures var bag := SampleBag(P, j, dict, classLabel).bob;
            && (forall k :: k in dict ==> Get(bag, dict[k]) == multiset(SampleKeys(P, j))[k])
            && (forall id :: id in bag <==> exists k :: k in SampleKeys(P, j) && dict[k] == id)
            && Total(bag) == SampleCount(P, j, |P.windowLengths|)
  {
    var keys := SampleKeys(P, j);
    var ids := Ids(keys, dict);
    forall k | k in dict ensures Get(Tally(ids), dict[k]) == multiset(keys)[k] {
      TallyCounts(ids, dict[k]);
      IdsCount(keys, dict, k);
    }
    forall id ensures id in Tally(ids) <==> exists k :: k in keys && dict[k] == id {
      TallyCounts(ids, id);
      if id in ids {
        var i :| 0 <= i < |ids| && ids[i] == id;
        assert keys[i] in keys && dict[keys[i]] == id;
      }
    }
    TallyTotal(ids);
    SampleKeysCount(P, j, |P.windowLengths|);
  }

  // ---------------------------------------------------------------------
  // The building loops

  /** Where the loops of one sample stand once it has emitted `keys`,
      starting from the dictionary `d0`: every key is numbered and the bag
      counts the ids of the keys. */
  ghost predicate Built(d0: map<FeatureKey, int>, keys: seq<FeatureKey>, dict: map<FeatureKey, int>, bag: map<int, int>) {
    && IsNumbering(d0)
    && dict == Register(d0, keys)
    && IsNumbering(dict)
    && (forall k :: k in keys ==> k in dict)
    && bag == Tally(Ids(keys, dict))
  }

  /** One emitted key: `getWord` numbers it and `putOrAdd(id, 1, 1)` counts it. */
  lemma BuiltStep(d0: map<FeatureKey, int>, keys: seq<FeatureKey>, dict: map<FeatureKey, int>, bag: map<int, int>, k: FeatureKey)
    requires Built(d0, keys, dict, bag)
    ensures Built(d0, keys + [k], LookupOrInsert(dict, k).0, PutOrAdd(bag, LookupOrInsert(dict, k).1, 1, 1))
  {
    var r := LookupOrInsert(dict, k);
    LookupOrInsertNumbering(dict, k);
    RegisterSnoc(d0, keys, k);
    IdsStable(keys, dict, r.0);
    IdsSnoc(keys, k, r.0);
    TallySnoc(Ids(keys, dict), r.1);
  }

  lemma RegisterSnoc(dict: map<FeatureKey, int>, keys: seq<FeatureKey>, k: FeatureKey)
    ensures Register(dict, keys + [k]) == LookupOrInsert(Register(dict, keys), k).0
  {
    assert (keys + [k])[..|keys|] == keys;
  }

  lemma IdsSnoc(keys: seq<FeatureKey>, k: FeatureKey, dict: map<FeatureKey, int>)
    ensures Ids(keys + [k], dict) == Ids(keys, dict) + [Get(dict, k)]
  {
  }

  lemma TallySnoc(s: seq<int>, x: int)
    ensures Tally(s + [x]) == PutOrAdd(Tally(s), x, 1, 1)
  {
    assert (s + [x])[..|s|] == s;
  }

  /** One more offset of a variate's words, after keys emitted before it. */
  lemma SeriesKeysSnoc(keys: seq<FeatureKey>, w: nat, d: nat, ws: seq<nat>, windowLength: nat, mask: nat, offset: nat)
    requires offset < |ws|
    ensures var word := Uni(w, d, And(ws[offset], mask));
            var done := keys + SeriesKeys(w, d, ws, windowLength, mask, offset);
            keys + SeriesKeys(w, d, ws, windowLength, mask, offset + 1) ==
              if offset - windowLength >= 0
              then done + [word] + [Bi(w, d, And(ws[offset - windowLength], mask), And(ws[offset], mask))]
              else done + [word]
  {
  }

  /** One more variate of an eligible window. */
  lemma WindowKeysSnoc(P: BagParams, j: int, w: nat, d: nat, before: seq<FeatureKey>)
    requires P.EligibleWindowsNonNegative() && P.Eligible(w)
    ensures var ws := P.WordsAt(w, j, d);
            before + WindowKeys(P, j, w, d + 1) ==
              before + WindowKeys(P, j, w, d) + SeriesKeys(w, d, ws, P.windowLengths[w], P.mask, |ws|)
  {
  }

  /** One more window: its keys when eligible, none otherwise. */
  lemma SampleKeysUpToSnoc(P: BagParams, j: int, w: nat)
    requires P.EligibleWindowsNonNegative() && w < |P.windowLengths|
    ensures SampleKeysUpTo(P, j, w + 1) ==
              SampleKeysUpTo(P, j, w) + if P.Eligible(w) then WindowKeys(P, j, w, P.Dims()) else []
  {
  }

  lemma {:induction false} RegisterAppend(dict: map<FeatureKey, int>, a: seq<FeatureKey>, b: seq<FeatureKey>)
    ensures Register(dict, a + b) == Register(Register(dict, a), b)
  {
    if b == [] {
      assert a + b == a;
    } else {
      var init, x := b[..|b| - 1], b[|b| - 1];
      var ab := a + b;
      assert ab[..|ab| - 1] == a + init && ab[|ab| - 1] == x;
      RegisterAppend(dict, a, init);
    }
  }

  lemma {:induction false} AllKeysCover(P: BagParams, n: nat, i: nat, k: FeatureKey)
    requires P.EligibleWindowsNonNegative() && i < n
    requires k in SampleKeys(P, P.Start(i))
    ensures k in AllKeys(P, n)
  {
    assert AllKeys(P, n) == AllKeys(P, n - 1) + SampleKeys(P, P.Start(n - 1));
    if i < n - 1 {
      AllKeysCover(P, n - 1, i, k);
    } else {
      assert P.Start(i) == P.Start(n - 1);
    }
  }

  /** After the samples below `n`, the dictionary is a numbering that holds
      every key each of them emitted. */
  lemma AllKeysRegistered(P: BagParams, n: nat, d0: map<FeatureKey, int>, i: nat)
    requires P.EligibleWindowsNonNegative() && IsNumbering(d0) && i < n
    ensures IsNumbering(Register(d0, AllKeys(P, n)))
    ensures forall k :: k in SampleKeys(P, P.Start(i)) ==> k in Register(d0, AllKeys(P, n))
  {
    RegisterNumbering(d0, AllKeys(P, n));
    forall k | k in SampleKeys(P, P.Start(i)) ensures k in AllKeys(P, n) {
      AllKeysCover(P, n, i, k);
    }
  }

  /** The bags of the samples so far, in sample order, each numbered by `dict`. */
  ghost predicate BagsBuilt(P: BagParams, samples: seq<MultiVariateTimeSeries>, bags: seq<BagOfBigrams>,
                            dict: map<FeatureKey, int>)
    requires P.EligibleWindowsNonNegative()
  {
    forall i :: 0 <= i < |bags| ==>
      i < |samples| && bags[i] == SampleBag(P, P.Start(i), dict, samples[i].classLabel)
  }

  /** Where the sample loop stands after the samples below `|bags|`: the
      dictionary holds their keys, numbered in emission order, and their
      bags are built in that dictionary. */
  ghost predicate SamplesBuilt(P: BagParams, samples: seq<MultiVariateTimeSeries>, d0: map<FeatureKey, int>,
                               bags: seq<BagOfBigrams>, dict: map<FeatureKey, int>)
    requires P.EligibleWindowsNonNegative()
  {
    |bags| <= |samples| && dict == Register(d0, AllKeys(P, |bags|)) && BagsBuilt(P, samples, bags, dict)
  }

  /** One more sample: its keys extend the dictionary without renumbering
      the keys of the earlier bags. */
  lemma BagsBuiltStep(P: BagParams, samples: seq<MultiVariateTimeSeries>, bags: seq<BagOfBigrams>,
                      d0: map<FeatureKey, int>, before: map<FeatureKey, int>, dict: map<FeatureKey, int>,
                      bag: map<int, int>)
    requires P.EligibleWindowsNonNegative() && IsNumbering(d0) && |bags| < |samples|
    requires SamplesBuilt(P, samples, d0, bags, before)
    requires Built(before, SampleKeys(P, P.Start(|bags|)), dict, bag)
    ensures SamplesBuilt(P, samples, d0, bags + [BagOfBigrams(bag, samples[|bags|].classLabel)], dict)
  {
    NextSampleDict(P, |bags|, d0, dict, bag);
    BagsBuiltExtend(P, samples, bags, d0, dict, bag);
  }

  /** The bags so far stay built when the dictionary is extended, and the
      new sample's bag joins them. */
  lemma BagsBuiltExtend(P: BagParams, samples: seq<MultiVariateTimeSeries>, bags: seq<BagOfBigrams>,
                        d0: map<FeatureKey, int>, dict: map<FeatureKey, int>, bag: map<int, int>)
    requires P.EligibleWindowsNonNegative() && IsNumbering(d0) && |bags| < |samples|
    requires BagsBuilt(P, samples, bags, Register(d0, AllKeys(P, |bags|)))
    requires Extends(dict, Register(d0, AllKeys(P, |bags|)))
    requires bag == Tally(Ids(SampleKeys(P, P.Start(|bags|)), dict))
    ensures BagsBuilt(P, samples, bags + [BagOfBigrams(bag, samples[|bags|].classLabel)], dict)
  {
    var n := |bags|;
    var bags' := bags + [BagOfBigrams(bag, samples[n].classLabel)];
    forall i | 0 <= i < n + 1
      ensures i < |samples| && bags'[i] == SampleBag(P, P.Start(i), dict, samples[i].classLabel)
    {
      if i < n {
        EarlierBagStable(P, n, d0, i, dict, samples[i].classLabel);
      }
    }
  }

  /** The dictionary after one more sample is the registration of all keys so far. */
  lemma NextSampleDict(P: BagParams, n: nat, d0: map<FeatureKey, int>, dict: map<FeatureKey, int>, bag: map<int, int>)
    requires P.EligibleWindowsNonNegative() && IsNumbering(d0)
    requires Built(Register(d0, AllKeys(P, n)), SampleKeys(P, P.Start(n)), dict, bag)
    ensures dict == Register(d0, AllKeys(P, n + 1))
    ensures Extends(dict, Register(d0, AllKeys(P, n)))
    ensures bag == Tally(Ids(SampleKeys(P, P.Start(n)), dict))
  {
    var before := Register(d0, AllKeys(P, n));
    assert AllKeys(P, n + 1) == AllKeys(P, n) + SampleKeys(P, P.Start(n));
    RegisterAppend(d0, AllKeys(P, n), SampleKeys(P, P.Start(n)));
    RegisterNumbering(before, SampleKeys(P, P.Start(n)));
  }

  /** The bag of an earlier sample reads the same under the extended dictionary. */
  lemma EarlierBagStable(P: BagParams, n: nat, d0: map<FeatureKey, int>, i: nat, dict: map<FeatureKey, int>,
                         classLabel: int)
    requires P.EligibleWindowsNonNegative() && IsNumbering(d0) && i < n
    requires Extends(dict, Register(d0, AllKeys(P, n)))
    ensures SampleBag(P, P.Start(i), dict, classLabel) == SampleBag(P, P.Start(i), Register(d0, AllKeys(P, n)), classLabel)
  {
    AllKeysRegistered(P, n, d0, i);
    IdsStable(SampleKeys(P, P.Start(i)), Register(d0, AllKeys(P, n)), dict);
  }

  /** The slot of variate `d` of window `w` for the sample at slot `j`. */
  lemma SlotAt(P: BagParams, j: int, w: nat, d: nat)
    requires P.SlotsAt(j) && P.Eligible(w) && d < P.Dims()
    ensures w < |P.words| && 0 <= j + d < |P.words[w]| && P.words[w][j + d].Some?
    ensures P.words[w][j + d].value == P.WordsAt(w, j, d)
  {
    var p := j + d;
    assert j <= p < j + P.Dims();
    assert P.Filled(w, p);
  }

  /** Sample `i` of `n` reads only slots that are there. */
  lemma SlotsOfSample(P: BagParams, n: nat, i: nat)
    requires P.HasSlots(n) && i < n
    ensures P.SlotsAt(P.Start(i))
  {
    var dims := P.Dims();
    if dims > 0 {
      var j, top := i * dims, n * dims;
      SampleEndBelow(i, n, dims);
      assert j + dims <= top;
      forall w: nat, p | P.Eligible(w) && j <= p < j + dims ensures P.Filled(w, p) {
        assert 0 <= p < top;
      }
    }
  }

  lemma SampleEndBelow(i: nat, n: nat, dims: nat)
    requires i < n
    ensures i * dims + dims <= n * dims
  {
    if dims > 0 {
      MulMonotonic(dims, i + 1, n);
    }
    assert dims * (i + 1) == i * dims + dims;
  }

  /** The bags the builder returns: in the final dictionary, the bag of
      sample `i` counts each key exactly as often as the sample emitted it,
      holds nothing else, and its counts add up to
      `Σ (len + max(0, len - windowLength))` over its eligible windows and
      visited variates. */
  lemma CreatedBagCounts(P: BagParams, n: nat, d0: map<FeatureKey, int>, i: nat, classLabel: int)
    requires P.EligibleWindowsNonNegative() && IsNumbering(d0) && i < n
    ensures var dict := Register(d0, AllKeys(P, n));
            var keys := SampleKeys(P, P.Start(i));
            var bag := SampleBag(P, P.Start(i), dict, classLabel);
            && IsNumbering(dict)
            && bag.classLabel == classLabel
            && (forall k :: k in keys ==> k in dict && Get(bag.bob, dict[k]) == multiset(keys)[k])
            && (forall id :: id in bag.bob <==> exists k :: k in keys && dict[k] == id)
            && Total(bag.bob) == SampleCount(P, P.Start(i), |P.windowLengths|)
  {
    AllKeysRegistered(P, n, d0, i);
    SampleBagCounts(P, P.Start(i), Register(d0, AllKeys(P, n)), classLabel);
  }

  // ---------------------------------------------------------------------
  // A worked case

  /** Two samples of one variate each with words `[0, 1, 1]` and
      `[0, 0, 1]`, one window of length 2, word length 2 and mask 3. */
  function TwoSampleParams(): BagParams {
    BagParams([[Some([0, 1, 1]), Some([0, 0, 1])]], [2], 2, 1, 3)
  }

  /** The keys the two samples of `TwoSampleParams` emit. */
  lemma TwoSampleKeys()
    ensures TwoSampleParams().EligibleWindowsNonNegative()
    ensures var P := TwoSampleParams();
            && SampleKeys(P, P.Start(0)) == [Uni(0, 0, 0), Uni(0, 0, 1), Uni(0, 0, 1), Bi(0, 0, 0, 1)]
            && SampleKeys(P, P.Start(1)) == [Uni(0, 0, 0), Uni(0, 0, 0), Uni(0, 0, 1), Bi(0, 0, 0, 1)]
            && AllKeys(P, 2) == SampleKeys(P, P.Start(0)) + SampleKeys(P, P.Start(1))
  {
    var P := TwoSampleParams();
    assert P.Eligible(0) && P.Dims() == 1;
    assert And(0, 3) == 0 && And(1, 3) == 1;
    var u0, u1, b01 := Uni(0, 0, 0), Uni(0, 0, 1), Bi(0, 0, 0, 1);
    var wa, wb := [0, 1, 1], [0, 0, 1];
    assert P.WordsAt(0, 0, 0) == wa && P.WordsAt(0, 1, 0) == wb;
    assert SeriesKeys(0, 0, wa, 2, 3, 2) == [u0, u1];
    assert SeriesKeys(0, 0, wa, 2, 3, 3) == [u0, u1, u1, b01];
    assert SeriesKeys(0, 0, wb, 2, 3, 2) == [u0, u0];
    assert SeriesKeys(0, 0, wb, 2, 3, 3) == [u0, u0, u1, b01];
    assert WindowKeys(P, 0, 0, 1) == [u0, u1, u1, b01];
    assert WindowKeys(P, 1, 0, 1) == [u0, u0, u1, b01];
    assert AllKeys(P, 1) == SampleKeys(P, P.Start(0));
  }

  /** Numbering the keys of `TwoSampleKeys` from an empty dictionary. */
  lemma TwoSampleDict()
    ensures var u0, u1, b01 := Uni(0, 0, 0), Uni(0, 0, 1), Bi(0, 0, 0, 1);
            var m := map[u0 := 1, u1 := 2, b01 := 3];
            && Register(map[], [u0, u1, u1, b01]) == m
            && Register(m, [u0, u0, u1, b01]) == m
  {
    var u0, u1, b01 := Uni(0, 0, 0), Uni(0, 0, 1), Bi(0, 0, 0, 1);
    var m := map[u0 := 1, u1 := 2, b01 := 3];
    assert [u0][..0] == [] && [u0, u1][..1] == [u0];
    assert Register(map[], [u0]) == map[u0 := 1];
    assert u1 != u0 && |map[u0 := 1]| == 1;
    assert Register(map[], [u0, u1]) == map[u0 := 1, u1 := 2];
    assert [u0, u1, u1][..2] == [u0, u1];
    assert Register(map[], [u0, u1, u1]) == map[u0 := 1, u1 := 2];
    assert [u0, u1, u1, b01][..3] == [u0, u1, u1];
    assert [u0, u0][..1] == [u0];
    assert Register(m, [u0]) == m;
    assert Register(m, [u0, u0]) == m;
    assert [u0, u0, u1][..2] == [u0, u0];
    assert Register(m, [u0, u0, u1]) == m;
    assert [u0, u0, u1, b01][..3] == [u0, u0, u1];
  }

  /** The ids of the two key sequences in the dictionary of `TwoSampleDict`. */
  lemma TwoSampleIds()
    ensures var u0, u1, b01 := Uni(0, 0, 0), Uni(0, 0, 1), Bi(0, 0, 0, 1);
            var m := map[u0 := 1, u1 := 2, b01 := 3];
            && Ids([u0, u1, u1, b01], m) == [1, 2, 2, 3]
            && Ids([u0, u0, u1, b01], m) == [1, 1, 2, 3]
  {
    var u0, u1, b01 := Uni(0, 0, 0), Uni(0, 0, 1), Bi(0, 0, 0, 1);
    var m := map[u0 := 1, u1 := 2, b01 := 3];
    assert Get(m, u0) == 1 && Get(m, u1) == 2 && Get(m, b01) == 3;
    var ia, ib := Ids([u0, u1, u1, b01], m), Ids([u0, u0, u1, b01], m);
    assert ia[0] == 1 && ia[1] == 2 && ia[2] == 2 && ia[3] == 3;
    assert ib[0] == 1 && ib[1] == 1 && ib[2] == 2 && ib[3] == 3;
  }

  /** The counts of the two id sequences. */
  lemma TwoSampleTallies()
    ensures Tally([1, 2, 2, 3]) == map[1 := 1, 2 := 2, 3 := 1]
    ensures Tally([1, 1, 2, 3]) == map[1 := 2, 2 := 1, 3 := 1]
  {
    assert Tally([1, 2]) == map[1 := 1, 2 := 1];
    assert [1, 2, 2][..2] == [1, 2];
    assert Tally([1, 2, 2]) == map[1 := 1, 2 := 2];
    assert [1, 2, 2, 3][..3] == [1, 2, 2];
    assert Tally([1, 1]) == map[1 := 2];
    assert [1, 1, 2][..2] == [1, 1];
    assert Tally([1, 1, 2]) == map[1 := 2, 2 := 1];
    assert [1, 1, 2, 3][..3] == [1, 1, 2];
  }

  /** The bags of the two samples of `TwoSampleParams`: the first emits the
      unigrams of words 0, 1, 1 and the bigram (0, 1), the second the
      unigrams of words 0, 0, 1 and the same bigram; the dictionary numbers
      the unigram of 0, the unigram of 1 and the bigram 1, 2, 3. */
  lemma TwoSampleBags()
    ensures TwoSampleParams().EligibleWindowsNonNegative()
    ensures var P := TwoSampleParams();
            var dict := Register(map[], AllKeys(P, 2));
            && dict == map[Uni(0, 0, 0) := 1, Uni(0, 0, 1) := 2, Bi(0, 0, 0, 1) := 3]
            && SampleBag(P, P.Start(0), dict, 0) == BagOfBigrams(map[1 := 1, 2 := 2, 3 := 1], 0)
            && SampleBag(P, P.Start(1), dict, 1) == BagOfBigrams(map[1 := 2, 2 := 1, 3 := 1], 1)
  {
    var P := TwoSampleParams();
    TwoSampleKeys();
    var u0, u1, b01 := Uni(0, 0, 0), Uni(0, 0, 1), Bi(0, 0, 0, 1);
    var ka, kb := [u0, u1, u1, b01], [u0, u0, u1, b01];
    var m := map[u0 := 1, u1 := 2, b01 := 3];
    assert Register(map[], AllKeys(P, 2)) == m by {
      TwoSampleDict();
      RegisterAppend(map[], ka, kb);
    }
    TwoSampleIds();
    TwoSampleTallies();
  }
}
