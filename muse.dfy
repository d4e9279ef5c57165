/** The WEASEL+MUSE model object: the configuration, one lazily fitted
    quantizer per window length, and the feature dictionary, with the
    operations that turn samples into word arrays, word arrays into bags of
    unigrams and bigrams, and filter those bags by the chi-squared test. */
module Muse {
  import opened Wrappers
  import opened JavaArith
  import opened FeatureKeys
  import opened HashMaps
  import opened MuseTypes
  import opened Dictionaries
  import opened WordExtraction
  import opened BagBuilding
  import opened ChiSquared

  class Muse {
    const alphabetSize: int
    const maxF: Int32
    const histogramType: HistogramType
    const windowLengths: seq<int>
    const normMean: bool
    const lowerBounding: bool
    /** `signature[w]`: the quantizer of window `w`, `None` until fitted. */
    const signature: array<Option<Quantizer>>
    const dict: Dictionary

    ghost predicate Valid()
      reads dict
    {
      signature.Length == |windowLengths| && dict.Valid()
    }

    /** The word length is forced even; no quantizer is fitted yet and the
        dictionary is empty. */
    constructor (maxF: Int32, maxS: int, histogramType: HistogramType, windowLengths: seq<int>,
                 normMean: bool, lowerBounding: bool)
      ensures Valid()
      ensures this.maxF == EvenWordLength(maxF) && this.alphabetSize == maxS
      ensures this.histogramType == histogramType && this.windowLengths == windowLengths
      ensures this.normMean == normMean && this.lowerBounding == lowerBounding
      ensures fresh(signature) && fresh(dict)
      ensures forall w :: 0 <= w < signature.Length ==> signature[w] == None
      ensures dict.dict == map[] && dict.dictChi == map[]
    {
      this.maxF := EvenWordLength(maxF);
      this.alphabetSize := maxS;
      this.windowLengths := windowLengths;
      this.normMean := normMean;
      this.lowerBounding := lowerBounding;
      this.dict := new Dictionary();
      this.signature := new Option<Quantizer>[|windowLengths|](_ => None);
      this.histogramType := histogramType;
    }

    /** The quantizer of window `index` once `createWords` has fitted it. */
    function FittedFor(current: Option<Quantizer>, samples: seq<MultiVariateTimeSeries>, index: nat): (q: Option<Quantizer>)
      requires index < |windowLengths|
      ensures q.Some?
      ensures current.Some? ==> q == current
    {
      if current.None? then Some(Fit(histogramType, samples, windowLengths[index], maxF, alphabetSize, normMean, lowerBounding))
      else current
    }

    /** `createWords(samples, index)`: fits the quantizer of window `index`
        unless it already is, then fills one slot per variate in visiting
        order: the quantizer's words, or none for a variate shorter than
        the window. */
    method CreateWords(samples: seq<MultiVariateTimeSeries>, index: nat, transform: Transform)
      returns (r: Result<seq<Slot>>)
      requires Valid() && index < |windowLengths|
      modifies signature
      ensures Valid()
      ensures signature[index] == FittedFor(old(signature[index]), samples, index)
      ensures forall w :: 0 <= w < signature.Length && w != index ==> signature[w] == old(signature[w])
      ensures r == WordSlots(signature[index].value, samples, windowLengths[index], maxF, transform)
    {
      if signature[index].None? {
        signature[index] := Some(Fit(histogramType, samples, windowLengths[index], maxF, alphabetSize, normMean, lowerBounding));
      }
      var q := signature[index].value;
      var windowLength := windowLengths[index];
      if |samples| == 0 {
        return Err(NoSamples);
      }
      r := FillSlots(q, samples, windowLength, transform);
    }

    /** The word loops of `createWords` for the fitted quantizer `q`. */
    method FillSlots(q: Quantizer, samples: seq<MultiVariateTimeSeries>, windowLength: int, transform: Transform)
      returns (r: Result<seq<Slot>>)
      requires samples != []
      ensures r == WordSlots(q, samples, windowLength, maxF, transform)
    {
      var n := |samples| * |samples[0].timeSeries|;
      var words := new Slot[n](_ => None);
      var pos := 0;
      ghost var visited: seq<TimeSeries> := [];
      for s := 0 to |samples|
        invariant visited == Flatten(samples[..s]) && pos == |visited| <= n
        invariant forall p :: 0 <= p < pos ==> words[p] == Some(SeriesWords(q, visited[p], windowLength, maxF, transform))
        invariant forall p :: pos <= p < n ==> words[p] == None
      {
        var series := samples[s].timeSeries;
        FlattenSnoc(samples, s);
        for t := 0 to |series|
          invariant visited == Flatten(samples[..s]) + series[..t] && pos == |visited| <= n
          invariant forall p :: 0 <= p < pos ==> words[p] == Some(SeriesWords(q, visited[p], windowLength, maxF, transform))
          invariant forall p :: pos <= p < n ==> words[p] == None
        {
          var ts := series[t];
          if pos >= n {
            FlattenPrefixLength(samples, s + 1);
            return Err(TooManySeries);
          }
          if |ts.values| >= windowLength {
            words[pos] := Some(transform(q, ts, maxF));
          } else {
            words[pos] := Some([]);
          }
          assert series[..t + 1] == series[..t] + [ts];
          visited := visited + [ts];
          pos := pos + 1;
        }
        assert series[..|series|] == series;
      }
      assert samples[..|samples|] == samples;
      r := Ok(words[..]);
      assert WordSlots(q, samples, windowLength, maxF, transform).value == words[..] by {
        forall p | 0 <= p < n ensures WordSlots(q, samples, windowLength, maxF, transform).value[p] == words[p] {
        }
      }
    }

    /** The outer `createWords(samples)`, with the window loop run in order:
        slot `w` holds `createWords(samples, w)`.  Every call fails or
        succeeds alike, so the result fails exactly when there is a window
        and the samples are empty or overflow the slots. */
    method CreateAllWords(samples: seq<MultiVariateTimeSeries>, transform: Transform)
      returns (r: Result<seq<seq<Slot>>>)
      requires Valid()
      modifies signature
      ensures Valid()
      ensures r.Err? <==>
                |windowLengths| > 0 && (samples == [] || |Flatten(samples)| > |samples| * |samples[0].timeSeries|)
      ensures forall w :: 0 <= w < signature.Length ==>
                signature[w] == old(signature[w]) || signature[w] == FittedFor(old(signature[w]), samples, w)
      ensures r.Ok? ==> |r.value| == |windowLengths| && forall w :: 0 <= w < |windowLengths| ==>
                signature[w] == FittedFor(old(signature[w]), samples, w)
                && r.value[w] == WordSlots(signature[w].value, samples, windowLengths[w], maxF, transform).value
    {
      var words: seq<seq<Slot>> := [];
      for w := 0 to |windowLengths|
        invariant Valid()
        invariant |words| == w
        invariant forall v :: w <= v < signature.Length ==> signature[v] == old(signature[v])
        invariant forall v :: 0 <= v < w ==>
                    signature[v] == FittedFor(old(signature[v]), samples, v)
                    && WordSlots(signature[v].value, samples, windowLengths[v], maxF, transform).Ok?
                    && words[v] == WordSlots(signature[v].value, samples, windowLengths[v], maxF, transform).value
        invariant 0 < w ==> !(samples == [] || |Flatten(samples)| > |samples| * |samples[0].timeSeries|)
      {
        var slots := CreateWords(samples, w, transform);
        WordSlotsShape(signature[w].value, samples, windowLengths[w], maxF, transform);
        if slots.Err? {
          return Err(slots.error);
        }
        words := words + [slots.value];
      }
      return Ok(words);
    }

    /** The builder's fixed inputs for one call: the word arrays, the window
        lengths, the word length, the variates per sample and the word mask. */
    function Params(words: seq<seq<Slot>>, dimensionality: int, wordLength: Int32, usedBits: Int8): BagParams {
      BagParams(words, windowLengths, wordLength, dimensionality, WordMask(usedBits, wordLength))
    }

    /** `createBagOfPatterns`: one bag per sample, in sample order, each
        carrying the sample's label and counting the ids of the keys the
        sample emits; the keys are numbered by `getWord` in emission order. */
    method CreateBagOfPatterns(words: seq<seq<Slot>>, samples: seq<MultiVariateTimeSeries>, dimensionality: int,
                               wordLength: Int32, usedBits: Int8)
      returns (r: Result<seq<BagOfBigrams>>)
      requires Valid()
      requires Params(words, dimensionality, wordLength, usedBits).EligibleWindowsNonNegative()
      requires Params(words, dimensionality, wordLength, usedBits).HasSlots(|samples|)
      modifies dict
      ensures Valid() && dict.dictChi == old(dict.dictChi)
      ensures r.Err? <==> samples == []
      ensures r.Err? ==> r.error == NoSamples && dict.dict == old(dict.dict)
      ensures r.Ok? ==>
                var P := Params(words, dimensionality, wordLength, usedBits);
                && dict.dict == Register(old(dict.dict), AllKeys(P, |samples|))
                && |r.value| == |samples|
                && forall i :: 0 <= i < |samples| ==>
                     r.value[i] == SampleBag(P, P.Start(i), dict.dict, samples[i].classLabel)
    {
      if |samples| == 0 {
        return Err(NoSamples);
      }
      var P := Params(words, dimensionality, wordLength, usedBits);
      var bags := BuildBags(P, samples);
      return Ok(bags);
    }

    /** The sample loop: sample `dim` starts at slot `j = dim * dimensionality`. */
    method BuildBags(P: BagParams, samples: seq<MultiVariateTimeSeries>) returns (bags: seq<BagOfBigrams>)
      requires dict.Valid() && P.EligibleWindowsNonNegative() && P.HasSlots(|samples|)
      modifies dict
      ensures dict.Valid() && dict.dictChi == old(dict.dictChi)
      ensures dict.dict == Register(old(dict.dict), AllKeys(P, |samples|))
      ensures |bags| == |samples| && BagsBuilt(P, samples, bags, dict.dict)
    {
      ghost var d0 := dict.dict;
      bags := [];
      var j := 0;
      for dim := 0 to |samples|
        invariant j == P.Start(dim)
        invariant dict.Valid() && dict.dictChi == old(dict.dictChi)
        invariant |bags| == dim
        invariant SamplesBuilt(P, samples, d0, bags, dict.dict)
      {
        SlotsOfSample(P, |samples|, dim);
        ghost var before := dict.dict;
        var bag := BuildSample(P, j);
        BagsBuiltStep(P, samples, bags, d0, before, dict.dict, bag);
        bags := bags + [BagOfBigrams(bag, samples[dim].classLabel)];
        MulSucc(dim, P.dimensionality);
        j := j + P.dimensionality;
      }
    }

    /** The window and variate loops of one sample, starting at slot `j`. */
    method BuildSample(P: BagParams, j: int) returns (bag: map<int, int>)
      requires dict.Valid() && P.EligibleWindowsNonNegative() && P.SlotsAt(j)
      modifies dict
      ensures dict.Valid() && dict.dictChi == old(dict.dictChi)
      ensures Built(old(dict.dict), SampleKeys(P, j), dict.dict, bag)
    {
      ghost var d0 := dict.dict;
      bag := map[];
      ghost var emitted: seq<FeatureKey> := [];
      for w := 0 to |P.windowLengths|
        invariant dict.Valid() && dict.dictChi == old(dict.dictChi)
        invariant emitted == SampleKeysUpTo(P, j, w)
        invariant Built(d0, emitted, dict.dict, bag)
      {
        SampleKeysUpToSnoc(P, j, w);
        if P.windowLengths[w] >= P.wordLength {
          bag := AddWindow(d0, emitted, bag, P, j, w);
          emitted := emitted + WindowKeys(P, j, w, P.Dims());
        }
      }
    }

    /** The variate loop of one eligible window. */
    method AddWindow(ghost d0: map<FeatureKey, int>, ghost keys: seq<FeatureKey>, bag: map<int, int>,
                     P: BagParams, j: int, w: nat)
      returns (out: map<int, int>)
      requires dict.Valid() && Built(d0, keys, dict.dict, bag)
      requires P.EligibleWindowsNonNegative() && P.SlotsAt(j) && P.Eligible(w)
      modifies dict
      ensures dict.Valid() && dict.dictChi == old(dict.dictChi)
      ensures Built(d0, keys + WindowKeys(P, j, w, P.Dims()), dict.dict, out)
    {
      out := bag;
      ghost var emitted := keys;
      var d := 0;
      while d < P.dimensionality
        invariant 0 <= d <= P.Dims()
        invariant dict.Valid() && dict.dictChi == old(dict.dictChi)
        invariant emitted == keys + WindowKeys(P, j, w, d)
        invariant Built(d0, emitted, dict.dict, out)
      {
        SlotAt(P, j, w, d);
        var ws := P.words[w][j + d].value;
        WindowKeysSnoc(P, j, w, d, keys);
        out := AddSeries(d0, emitted, out, w, d, ws, P.windowLengths[w], P.mask);
        emitted := emitted + SeriesKeys(w, d, ws, P.windowLengths[w], P.mask, |ws|);
        d := d + 1;
      }
      assert d == P.Dims();
    }

    /** The offset loop of one variate's words: the unigram at every offset
        and, from offset `windowLength` on, the bigram with the word one
        window earlier, each numbered by `getWord` and counted. */
    method AddSeries(ghost d0: map<FeatureKey, int>, ghost keys: seq<FeatureKey>, bag: map<int, int>,
                     w: nat, d: nat, ws: seq<nat>, windowLength: nat, mask: nat)
      returns (out: map<int, int>)
      requires dict.Valid() && Built(d0, keys, dict.dict, bag)
      modifies dict
      ensures dict.Valid() && dict.dictChi == old(dict.dictChi)
      ensures Built(d0, keys + SeriesKeys(w, d, ws, windowLength, mask, |ws|), dict.dict, out)
    {
      out := bag;
      ghost var emitted := keys;
      for offset := 0 to |ws|
        invariant dict.Valid() && dict.dictChi == old(dict.dictChi)
        invariant emitted == keys + SeriesKeys(w, d, ws, windowLength, mask, offset)
        invariant Built(d0, emitted, dict.dict, out)
      {
        SeriesKeysSnoc(keys, w, d, ws, windowLength, mask, offset);
        var word := Uni(w, d, And(ws[offset], mask));
        BuiltStep(d0, emitted, dict.dict, out, word);
        var id := dict.GetWord(word);
        out := PutOrAdd(out, id, 1, 1);
        emitted := emitted + [word];
        if offset - windowLength >= 0 {
          var bigram := Bi(w, d, And(ws[offset - windowLength], mask), And(ws[offset], mask));
          BuiltStep(d0, emitted, dict.dict, out, bigram);
          var id2 := dict.GetWord(bigram);
          out := PutOrAdd(out, id2, 1, 1);
          emitted := emitted + [bigram];
        }
      }
    }

    /** `filterChiSquared`: scores the features of the bags, zeroes in place
        the entries of features scoring below the limit, then compacts the
        bags through `remap`.  An empty bag array fails before any change. */
    method FilterChiSquared(bags: array<BagOfBigrams>, limit: real) returns (r: Outcome)
      requires Valid()
      modifies bags, dict
      ensures Valid() && dict.dict == old(dict.dict)
      ensures r.Fail? <==> bags.Length == 0
      ensures r.Fail? ==> r.error == NoSamples && dict.dictChi == old(dict.dictChi)
      ensures r.Pass? ==> Extends(dict.dictChi, old(dict.dictChi))
      ensures r.Pass? ==> forall x :: x in dict.dictChi <==>
                x in old(dict.dictChi) || x in AllPositiveKeys(ZeroedBags(old(bags[..]), limit))
      ensures r.Pass? ==> forall j :: 0 <= j < bags.Length ==>
                && bags[j].classLabel == old(bags[j]).classLabel
                && IsCompaction(bags[j].bob, ZeroedBags(old(bags[..]), limit)[j].bob, dict.dictChi)
    {
      if bags.Length == 0 {
        return Fail(NoSamples);
      }
      ghost var original := bags[..];
      var featureCount, observed := CountFeatures(bags);
      var classCount := CountClasses(bags);
      var chiSquare := ScoreFeatures(bags[..], classCount, featureCount, observed, bags.Length, limit);
      ZeroWeakFeatures(bags, chiSquare, limit);
      ghost var zeroed := bags[..];
      forall j | 0 <= j < bags.Length ensures zeroed[j] == ZeroedBags(original, limit)[j] {
        ZeroingKeepsStrong(original, limit, chiSquare, zeroed[j].bob, original[j].bob);
      }
      assert zeroed == ZeroedBags(original, limit);
      dict.Remap(bags);
      return Pass;
    }
  }
}
