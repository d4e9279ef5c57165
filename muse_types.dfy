/** The values the pipeline passes between its stages. */
module MuseTypes {

  /** The histogram (binning) mode handed to the quantizer.  Binning itself
      belongs to the quantizer and is not part of this model. */
  datatype HistogramType = EquiDepth | EquiFrequency

  /** One variate of a sample; `getLength()` is `|values|`. */
  datatype TimeSeries = TimeSeries(values: seq<real>)

  /** A sample: its variates in order and its class label (the label's
      `longValue()`, which is all the pipeline uses of it). */
  datatype MultiVariateTimeSeries = MultiVariateTimeSeries(timeSeries: seq<TimeSeries>, classLabel: int)

  /** A sample's sparse feature histogram, `feature id -> count`, and its class label. */
  datatype BagOfBigrams = BagOfBigrams(bob: map<int, int>, classLabel: int)

  /** A fitted quantizer.  What `fitWindowing` learns is foreign to this model;
      a fitted quantizer is represented by the arguments it was fitted with. */
  datatype Quantizer = Quantizer(
    histogramType: HistogramType,
    windowLength: int,
    wordLength: int,
    alphabetSize: int,
    normMean: bool,
    lowerBounding: bool,
    trainedOn: seq<MultiVariateTimeSeries>)
}
