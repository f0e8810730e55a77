/**
 * The full-trace profile of `ECGDetailViewModel`: accumulate Lead I voltages
 * until `.done`, smooth them with a five-sample moving average, run the QRS
 * detector on the smoothed trace, and publish the trace, its R peaks and the
 * mean R-R interval together.
 */
module DetailViewModel {
  import opened Optional
  import opened Series
  import opened SignalProcessor
  import opened EcgQuery

  /** Sampling rate handed to the detector and used for the R-R intervals, in samples per second. */
  const DetailSamplingRate: real := 512.0

  /** Window of the smoothing applied before display and detection. */
  const SmoothingWindow: int := 5

  /**
   * The QRS detector (PeakSwift, NeuroKit algorithm): smoothed trace and
   * sampling rate to R-peak sample indices. Its algorithm is not modelled.
   */
  type Detector = (seq<real>, real) -> seq<int>

  predicate StrictlyIncreasing(peaks: seq<int>)
  {
    forall j, k :: 0 <= j < k < |peaks| ==> peaks[j] < peaks[k]
  }

  /** The detector's contract: strictly increasing indices into a trace of length `n`. */
  predicate ValidPeaks(peaks: seq<int>, n: int)
  {
    StrictlyIncreasing(peaks) && forall k :: 0 <= k < |peaks| ==> 0 <= peaks[k] < n
  }

  // ---------------------------------------------------------------------------
  // Smoothing
  // ---------------------------------------------------------------------------

  /** `processVoltagesForDetail`: empty stays empty, anything else is smoothed with window 5. */
  function ProcessVoltagesForDetail(voltages: seq<real>): (r: seq<real>)
    ensures |r| == |voltages|
    ensures |voltages| <= SmoothingWindow ==> r == voltages
  {
    if |voltages| == 0 then [] else MovingAverage(voltages, SmoothingWindow)
  }

  /** The empty-input guard is redundant: the filter already returns short input unchanged. */
  lemma DetailSmoothingIsMovingAverage(voltages: seq<real>)
    ensures ProcessVoltagesForDetail(voltages) == MovingAverage(voltages, SmoothingWindow)
  {
  }

  // ---------------------------------------------------------------------------
  // R-R intervals
  // ---------------------------------------------------------------------------

  /** Milliseconds between two sample indices: `(Double(b - a) / samplingRate) * 1000`. */
  function IntervalMs(a: int, b: int, samplingRate: real): real
    requires samplingRate != 0.0
  {
    ((b - a) as real / samplingRate) * 1000.0
  }

  /** The intervals between consecutive peaks, in order. */
  function RRIntervals(peaks: seq<int>, samplingRate: real): (r: seq<real>)
    requires samplingRate != 0.0
    ensures |peaks| <= 1 ==> r == []
    ensures |peaks| >= 1 ==> |r| == |peaks| - 1
    ensures forall i :: 0 <= i < |r| ==> r[i] == IntervalMs(peaks[i], peaks[i + 1], samplingRate)
  {
    if |peaks| <= 1 then []
    else RRIntervals(peaks[..|peaks| - 1], samplingRate)
         + [IntervalMs(peaks[|peaks| - 2], peaks[|peaks| - 1], samplingRate)]
  }

  /** Adjacent intervals add up: the interval from `a` to `c` through `b`. */
  lemma IntervalAdd(a: int, b: int, c: int, samplingRate: real)
    requires samplingRate != 0.0
    ensures IntervalMs(a, b, samplingRate) + IntervalMs(b, c, samplingRate) == IntervalMs(a, c, samplingRate)
  {
    var x, y := (b - a) as real, (c - b) as real;
    assert x / samplingRate + y / samplingRate == (x + y) / samplingRate;
  }

  /** The intervals telescope: their sum is the interval from the first peak to the last. */
  lemma {:induction false} RRIntervalsTelescope(peaks: seq<int>, samplingRate: real)
    requires samplingRate != 0.0
    requires |peaks| >= 1
    ensures Sum(RRIntervals(peaks, samplingRate)) == IntervalMs(peaks[0], peaks[|peaks| - 1], samplingRate)
  {
    var r := RRIntervals(peaks, samplingRate);
    if |peaks| == 1 {
      assert IntervalMs(peaks[0], peaks[0], samplingRate) == 0.0;
    } else {
      var init := peaks[..|peaks| - 1];
      RRIntervalsTelescope(init, samplingRate);
      var last := IntervalMs(peaks[|peaks| - 2], peaks[|peaks| - 1], samplingRate);
      assert r == RRIntervals(init, samplingRate) + [last];
      SumSnoc(RRIntervals(init, samplingRate), last);
      IntervalAdd(peaks[0], peaks[|peaks| - 2], peaks[|peaks| - 1], samplingRate);
    }
  }

  /**
   * `calculateAverageRRInterval(from:samplingRate:)`: absent for fewer than
   * two peaks, otherwise the mean of the consecutive intervals, which equals
   * the first-to-last interval divided by the number of intervals.
   */
  function CalculateAverageRRInterval(peaks: seq<int>, samplingRate: real): (r: Option<real>)
    requires samplingRate != 0.0
    ensures r.None? <==> |peaks| < 2
    ensures r.Some? ==> r.value == Mean(RRIntervals(peaks, samplingRate))
    ensures r.Some? ==>
      r.value == IntervalMs(peaks[0], peaks[|peaks| - 1], samplingRate) / ((|peaks| - 1) as real)
  {
    if |peaks| <= 1 then None
    else
      var intervals := RRIntervals(peaks, samplingRate);
      RRIntervalsTelescope(peaks, samplingRate);
      Some(Sum(intervals) / (|intervals| as real))
  }

  /** Strictly increasing peaks at a positive rate give a positive mean interval. */
  lemma AverageRRIntervalPositive(peaks: seq<int>, samplingRate: real)
    requires samplingRate > 0.0
    requires StrictlyIncreasing(peaks)
    requires |peaks| >= 2
    ensures CalculateAverageRRInterval(peaks, samplingRate).Some?
    ensures CalculateAverageRRInterval(peaks, samplingRate).value > 0.0
  {
    var span := (peaks[|peaks| - 1] - peaks[0]) as real;
    assert span > 0.0;
    assert span / samplingRate > 0.0;
    var total := IntervalMs(peaks[0], peaks[|peaks| - 1], samplingRate);
    assert total > 0.0;
    assert total / ((|peaks| - 1) as real) > 0.0;
  }

  /** Peaks 100, 200, 300 at 512 Hz: two intervals of 195.3125 ms, and that mean. */
  lemma AverageRRIntervalExample()
    ensures RRIntervals([100, 200, 300], 512.0) == [195.3125, 195.3125]
    ensures CalculateAverageRRInterval([100, 200, 300], 512.0) == Some(195.3125)
  {
    assert IntervalMs(100, 200, 512.0) == 195.3125;
    assert IntervalMs(200, 300, 512.0) == 195.3125;
    assert IntervalMs(100, 300, 512.0) == 390.625;
  }

  // ---------------------------------------------------------------------------
  // The query callback of fetchVoltages, as a fold
  // ---------------------------------------------------------------------------

  /** The published properties of the view model. */
  datatype DetailView = DetailView(
    voltages: seq<real>,
    rPeaks: seq<int>,
    averageRRInterval: Option<real>,
    isLoading: bool)

  /** State of one fetch: the voltages accumulated by the callback, and the published view. */
  datatype DetailFetch = DetailFetch(accumulated: seq<real>, view: DetailView)

  /**
   * The view published after `.done`: the smoothed buffer, the detector's
   * peaks on that same smoothed buffer, the mean R-R interval of exactly
   * those peaks, and loading finished.
   */
  predicate PublishedFrom(view: DetailView, accumulated: seq<real>, detect: Detector)
  {
    && view.voltages == ProcessVoltagesForDetail(accumulated)
    && view.rPeaks == detect(view.voltages, DetailSamplingRate)
    && view.averageRRInterval == CalculateAverageRRInterval(view.rPeaks, DetailSamplingRate)
    && !view.isLoading
  }

  /**
   * One callback of the full-recording query. On `.done` the buffer is
   * smoothed, the detector runs on the smoothed trace, the mean R-R interval
   * is computed from its peaks, and all four properties are published at once.
   */
  function DetailStep(s: DetailFetch, e: QueryResult, detect: Detector): (t: DetailFetch)
    ensures t.accumulated == s.accumulated + LeadValue(e)
    ensures e.Measurement? ==> t.view == s.view
    ensures e.Error? ==> t.view == s.view.(isLoading := false)
    ensures e.Done? ==> PublishedFrom(t.view, t.accumulated, detect)
  {
    match e
    case Measurement(lead) =>
      (match lead
       case None => s
       case Some(v) => s.(accumulated := s.accumulated + [v]))
    case Done =>
      var processed := ProcessVoltagesForDetail(s.accumulated);
      var peaks := detect(processed, DetailSamplingRate);
      s.(view := DetailView(processed, peaks, CalculateAverageRRInterval(peaks, DetailSamplingRate), false))
    case Error => s.(view := s.view.(isLoading := false))
  }

  /** `fetchVoltages`: set `isLoading`, start an empty buffer, then fold the stream's callbacks. */
  function FetchVoltages(prior: DetailView, events: seq<QueryResult>, detect: Detector): (r: DetailFetch)
    ensures |r.accumulated| <= |events|
    ensures |events| == 0 ==> r == DetailFetch([], prior.(isLoading := true))
    ensures |events| > 0 && !events[|events| - 1].Measurement? ==> !r.view.isLoading
  {
    if |events| == 0 then DetailFetch([], prior.(isLoading := true))
    else DetailStep(FetchVoltages(prior, events[..|events| - 1], detect), events[|events| - 1], detect)
  }

  /** The buffer holds every Lead I voltage, in arrival order. */
  lemma {:induction false} FetchAccumulates(prior: DetailView, events: seq<QueryResult>, detect: Detector)
    ensures FetchVoltages(prior, events, detect).accumulated == LeadValues(events)
  {
    if |events| > 0 {
      FetchAccumulates(prior, events[..|events| - 1], detect);
    }
  }

  /**
   * Nothing is published before `.done`: the trace, peaks and interval keep
   * their prior values, and loading stays on unless an error arrived.
   */
  lemma {:induction false} NothingPublishedBeforeDone(prior: DetailView, events: seq<QueryResult>, detect: Detector)
    requires forall k :: 0 <= k < |events| ==> !events[k].Done?
    ensures FetchVoltages(prior, events, detect).view.voltages == prior.voltages
    ensures FetchVoltages(prior, events, detect).view.rPeaks == prior.rPeaks
    ensures FetchVoltages(prior, events, detect).view.averageRRInterval == prior.averageRRInterval
    ensures FetchVoltages(prior, events, detect).view.isLoading
      <==> forall k :: 0 <= k < |events| ==> !events[k].Error?
  {
    if |events| > 0 {
      var init := events[..|events| - 1];
      forall k | 0 <= k < |init| ensures !init[k].Done? {
        assert init[k] == events[k];
      }
      NothingPublishedBeforeDone(prior, init, detect);
      if forall k :: 0 <= k < |init| ==> !init[k].Error? {
        if !events[|events| - 1].Error? {
          forall k | 0 <= k < |events| ensures !events[k].Error? {
            if k < |init| {
              assert events[k] == init[k];
            }
          }
        }
      } else {
        var k :| 0 <= k < |init| && init[k].Error?;
        assert events[k].Error?;
      }
    }
  }

  /**
   * A stream that ends in `.done` publishes a consistent view: the smoothed
   * buffer of every Lead I voltage (as many samples as were collected), the
   * detector's peaks on exactly that trace, and their mean R-R interval.
   */
  lemma DonePublishesConsistentView(prior: DetailView, events: seq<QueryResult>, detect: Detector)
    requires |events| > 0 && events[|events| - 1].Done?
    ensures var view := FetchVoltages(prior, events, detect).view;
      PublishedFrom(view, LeadValues(events), detect) && |view.voltages| == |LeadValues(events)|
  {
    FetchAccumulates(prior, events, detect);
    FetchAccumulates(prior, events[..|events| - 1], detect);
    assert LeadValues(events) == LeadValues(events[..|events| - 1]);
  }

  /**
   * When the detector keeps its contract, the published peaks are strictly
   * increasing indices into the published trace (what the chart relies on
   * when it plots `voltages[peakIndex]`), and a present mean interval is positive.
   */
  lemma DonePeaksIndexTrace(prior: DetailView, events: seq<QueryResult>, detect: Detector)
    requires forall trace, rate :: ValidPeaks(detect(trace, rate), |trace|)
    requires |events| > 0 && events[|events| - 1].Done?
    ensures var view := FetchVoltages(prior, events, detect).view;
      ValidPeaks(view.rPeaks, |view.voltages|)
      && (view.averageRRInterval.Some? ==> view.averageRRInterval.value > 0.0)
  {
    var view := FetchVoltages(prior, events, detect).view;
    DonePublishesConsistentView(prior, events, detect);
    assert view.rPeaks == detect(view.voltages, DetailSamplingRate);
    if |view.rPeaks| >= 2 {
      AverageRRIntervalPositive(view.rPeaks, DetailSamplingRate);
    }
  }
}
