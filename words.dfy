/** What `createWords(samples, index)` produces: one slot per variate of
    every sample, filled in sample order and variate order, each holding the
    quantizer's words for that variate, or no words when the variate is
    shorter than the window. */
module WordExtraction {
  import opened Wrappers
  import opened MuseTypes

  /** The quantizer's `transformWindowingInt(series, wordLength)`: foreign
      code, supplied by the caller as a function of the fitted quantizer. */
  type Transform = (Quantizer, TimeSeries, int) -> seq<nat>

  /** A word-array slot of the result: `None` is a Java `null` slot. */
  type Slot = Option<seq<nat>>

  /** The quantizer `fitWindowing` would fit for these arguments. */
  function Fit(histogramType: HistogramType, samples: seq<MultiVariateTimeSeries>, windowLength: int,
               wordLength: int, alphabetSize: int, normMean: bool, lowerBounding: bool): (q: Quantizer)
    ensures q.trainedOn == samples && q.windowLength == windowLength && q.wordLength == wordLength
  {
    Quantizer(histogramType, windowLength, wordLength, alphabetSize, normMean, lowerBounding, samples)
  }

  /** All variates of all samples, in the order the nested for-each loops
      visit them. */
  function Flatten(samples: seq<MultiVariateTimeSeries>): (r: seq<TimeSeries>)
  {
    if samples == [] then []
    else Flatten(samples[..|samples| - 1]) + samples[|samples| - 1].timeSeries
  }

  /** The words of one variate: the quantizer's words when the variate is at
      least as long as the window, none otherwise. */
  function SeriesWords(q: Quantizer, ts: TimeSeries, windowLength: int, wordLength: int, transform: Transform): seq<nat> {
    if |ts.values| >= windowLength then transform(q, ts, wordLength) else []
  }

  /** The slots `createWords(samples, index)` returns for quantizer `q`: as
      many as `samples.length * samples[0].getDimensions()`, the `pos`-th
      variate visited in slot `pos`, the slots past the last variate left
      `null`.  An empty sample array and a variate visited past the last
      slot are the two exceptions of the source. */
  function WordSlots(q: Quantizer, samples: seq<MultiVariateTimeSeries>, windowLength: int, wordLength: int,
                     transform: Transform): Result<seq<Slot>>
  {
    if samples == [] then Err(NoSamples)
    else
      var flat := Flatten(samples);
      var n := |samples| * |samples[0].timeSeries|;
      if |flat| > n then Err(TooManySeries)
      else Ok(seq(n, pos requires 0 <= pos < n =>
                       if pos < |flat| then Some(SeriesWords(q, flat[pos], windowLength, wordLength, transform))
                       else None))
  }

  /** Every sample has `dims` variates. */
  predicate Uniform(samples: seq<MultiVariateTimeSeries>, dims: nat) {
    forall s :: 0 <= s < |samples| ==> |samples[s].timeSeries| == dims
  }

  // ---------------------------------------------------------------------
  // Properties

  /** The flattening holds `dims` variates per sample. */
  lemma {:induction false} FlattenLength(samples: seq<MultiVariateTimeSeries>, dims: nat)
    requires Uniform(samples, dims)
    ensures |Flatten(samples)| == |samples| * dims
  {
    if samples != [] {
      var init := samples[..|samples| - 1];
      assert Uniform(init, dims);
      FlattenLength(init, dims);
      assert |init| * dims + dims == |samples| * dims;
    }
  }

  /** The source's position `pos` of variate `d` of sample `s` among `n`
      samples of `dims` variates each. */
  function SlotOf(s: nat, d: nat, dims: nat, n: nat): (pos: nat)
    requires s < n && d < dims
    ensures pos < n * dims
  {
    SlotBelow(s, d, dims, n);
    s * dims + d
  }

  /** Variate `d` of sample `s` is at `s * dims + d` of the flattening. */
  lemma {:induction false} FlattenAt(samples: seq<MultiVariateTimeSeries>, dims: nat, s: nat, d: nat)
    requires Uniform(samples, dims)
    requires s < |samples| && d < dims
    ensures SlotOf(s, d, dims, |samples|) < |Flatten(samples)|
    ensures Flatten(samples)[SlotOf(s, d, dims, |samples|)] == samples[s].timeSeries[d]
  {
    var last := |samples| - 1;
    var init := samples[..last];
    assert Uniform(init, dims);
    FlattenLength(init, dims);
    FlattenLength(samples, dims);
    if s == last {
      assert s * dims + d == |Flatten(init)| + d;
    } else {
      assert SlotOf(s, d, dims, |samples|) == SlotOf(s, d, dims, last);
      FlattenAt(init, dims, s, d);
    }
  }

  lemma SlotBelow(s: nat, d: nat, dims: nat, n: nat)
    requires s < n && d < dims
    ensures s * dims + d < n * dims
  {
    assert (s + 1) * dims <= n * dims;
  }

  /** With the same number of variates in every sample, `createWords` fills
      every slot: slot `s * dims + d` holds the words of variate `d` of
      sample `s`, and a variate shorter than the window gets no words. */
  lemma WordSlotsLayout(q: Quantizer, samples: seq<MultiVariateTimeSeries>, dims: nat, windowLength: int,
                        wordLength: int, transform: Transform)
    requires samples != [] && Uniform(samples, dims)
    ensures WordSlots(q, samples, windowLength, wordLength, transform).Ok?
    ensures var slots := WordSlots(q, samples, windowLength, wordLength, transform).value;
            |slots| == |samples| * dims
            && (forall pos :: 0 <= pos < |slots| ==> slots[pos].Some?)
            && forall s, d :: 0 <= s < |samples| && 0 <= d < dims ==>
                 var ts, pos := samples[s].timeSeries[d], SlotOf(s, d, dims, |samples|);
                 && slots[pos] == Some(SeriesWords(q, ts, windowLength, wordLength, transform))
                 && (|ts.values| < windowLength ==> slots[pos] == Some([]))
  {
    FlattenLength(samples, dims);
    var slots := WordSlots(q, samples, windowLength, wordLength, transform).value;
    forall s, d | 0 <= s < |samples| && 0 <= d < dims
      ensures slots[SlotOf(s, d, dims, |samples|)] == Some(SeriesWords(q, samples[s].timeSeries[d], windowLength, wordLength, transform))
    {
      FlattenAt(samples, dims, s, d);
    }
  }

  /** More variates than the first sample has, in total, is the source's
      out-of-bounds exception; fewer leave trailing `null` slots. */
  lemma WordSlotsShape(q: Quantizer, samples: seq<MultiVariateTimeSeries>, windowLength: int,
                       wordLength: int, transform: Transform)
    ensures var r := WordSlots(q, samples, windowLength, wordLength, transform);
            && (r.Err? <==> samples == [] || |Flatten(samples)| > |samples| * |samples[0].timeSeries|)
            && (r.Ok? ==> |r.value| == |samples| * |samples[0].timeSeries|
                          && forall pos :: 0 <= pos < |r.value| ==> (r.value[pos].Some? <==> pos < |Flatten(samples)|))
  {
  }

  /** The variates of one more sample follow those of the samples before it. */
  lemma FlattenSnoc(samples: seq<MultiVariateTimeSeries>, s: nat)
    requires s < |samples|
    ensures Flatten(samples[..s + 1]) == Flatten(samples[..s]) + samples[s].timeSeries
  {
    assert samples[..s + 1][..s] == samples[..s];
  }

  lemma {:induction false} FlattenPrefixLength(samples: seq<MultiVariateTimeSeries>, s: nat)
    requires s <= |samples|
    ensures |Flatten(samples[..s])| <= |Flatten(samples)|
    decreases |samples| - s
  {
    if s < |samples| {
      FlattenSnoc(samples, s);
      FlattenPrefixLength(samples, s + 1);
    } else {
      assert samples[..s] == samples;
    }
  }
}
