# ECG2 signal pipeline — a Dafny model

This project models the signal-conditioning and interval-analysis core of the
ECG2 app, which reads Apple Watch single-lead electrocardiograms from
HealthKit. It has three parts:

- **`SignalProcessor`** (`signal_processor.dfy`, with folds in `series.dfy`).
  These are the stateless transforms: a centred moving average clamped at
  the boundaries, a linear min/max normalisation, and the first backward
  difference. `Double` is modelled as `real`.
- **`ThumbnailViewModel`** (`thumbnail_view_model.dfy`). This is the preview
  profile. The Lead I voltages of an electrocardiogram query are collected
  one callback at a time. Reaching 1536 samples (512 Hz × 3 s) triggers a
  store, and so does `.done`. Each store decimates the buffer by four over
  its first 1536 positions. The result is written into the preview map under
  the recording's UUID.
- **`DetailViewModel`** (`detail_view_model.dfy`). This is the full-trace
  profile. Voltages are collected until `.done`. The buffer is then smoothed
  with window 5 and handed to the QRS detector. The view publishes the
  smoothed trace, the R peaks and the mean R-R interval in one update.

The query callback is modelled as a left fold over a sequence of
`EcgQuery.QueryResult` values (`Measurement(leadI)`, `Done`, `Error`).
`EcgQuery.LeadValues` is the independent reference for what a buffer should
hold: the Lead I voltages in arrival order. The PeakSwift detector is a
function-typed parameter, `DetailViewModel.Detector`. Its contract,
`ValidPeaks`, is assumed only where a lemma needs it.

Two behaviours of the code are worth stating plainly:

- The comments at `ECGThumbnailViewModel.swift:63` ("Fetch exactly 3
  seconds") and `:75` ("Stop after collecting exactly 3 seconds worth of
  data") state an intent to stop collecting at 1536 samples. The `return` at
  `:78` only leaves the current callback, so later measurements and `.done`
  store again (see Findings). The model follows the code.
  `AllPreviewsIdentical` shows that all of these stores write the same
  preview.
- On `.error`, the preview fetch stores nothing. The detail fetch only
  clears `isLoading`.

## Model

| member | source | states |
|---|---|---|
| SignalProcessor.HalfWindow | ECG2/Utilities/SignalProcessor.swift:23 | `windowSize / 2` truncates toward zero: for w ≥ 0 the half window h satisfies 0 ≤ h and 2h ≤ w ≤ 2h+1; for w < 0, h ≤ 0 and 2h-1 ≤ w ≤ 2h (so -1 gives 0) |
| SignalProcessor.Window | ECG2/Utilities/SignalProcessor.swift:23-25 | with window size ≥ -1, the clamped window of position i is non-empty, contains data[i], and has at most 2·HalfWindow(w)+1 samples, so the divisor is never 0 |
| SignalProcessor.MovingAverage | ECG2/Utilities/SignalProcessor.swift:14-36 | output length equals input length; input of length ≤ windowSize is returned unchanged; defined exactly where the source does not trap (empty input, or windowSize ≥ -1) |
| SignalProcessor.MovingAverageFilter | ECG2/Utilities/SignalProcessor.swift:14-36 | the source's two nested loops compute, at every position, the arithmetic mean of the clamped window `[max(0,i-w/2), min(n-1,i+w/2)]`, and agree with the reference definition |
| SignalProcessor.SumWindow | ECG2/Utilities/SignalProcessor.swift:27-30 | the inner loop's sum is the sum of data[start...end] and its count is the window length |
| SignalProcessor.MovingAverageWithinWindow | ECG2/Utilities/SignalProcessor.swift:27-32 | every smoothed sample lies between the minimum and maximum of its window |
| SignalProcessor.MovingAverageConstant | ECG2/Utilities/SignalProcessor.swift:19-33 | a constant series is returned unchanged |
| SignalProcessor.MovingAverageBoundaryExample | ECG2/Utilities/SignalProcessor.swift:23-32 | on 1..10 with window 5, the clamped end windows give 2 at position 0 and 9 at position 9 |
| SignalProcessor.Normalize | ECG2/Utilities/SignalProcessor.swift:39-42 | output length equals input length; an empty or flat (min = max) input maps to all zeros |
| SignalProcessor.NormalizeHitsTargets | ECG2/Utilities/SignalProcessor.swift:44-47 | for a non-flat input, positions holding the input minimum map exactly to minValue and positions holding the maximum map exactly to maxValue |
| SignalProcessor.NormalizePreservesOrder | ECG2/Utilities/SignalProcessor.swift:44-47 | with minValue ≤ maxValue the rescale is monotone; with minValue < maxValue it preserves and reflects strict order |
| SignalProcessor.NormalizeSpansTargets | ECG2/Utilities/SignalProcessor.swift:44-47 | for a non-flat input and minValue ≤ maxValue, every output lies in [minValue, maxValue], the output minimum is minValue and its maximum is maxValue |
| SignalProcessor.NormalizeRoundTrip | ECG2/Utilities/SignalProcessor.swift:44-47 | with a non-degenerate target range, the inverse affine map recovers every input sample from its output |
| SignalProcessor.Derivative | ECG2/Utilities/SignalProcessor.swift:51-61 | inputs of length ≤ 1 give []; otherwise same length, out[0] = 0 and out[i] = data[i] - data[i-1] |
| SignalProcessor.DerivativeTelescopes | ECG2/Utilities/SignalProcessor.swift:54-58 | summing the differences recovers the signal: data[k] = data[0] + out[1] + … + out[k] |
| ThumbnailViewModel.SamplesToCollect | ECG2/ViewModels/ECGThumbnailViewModel.swift:66-68 | the threshold `Int(512.0 * 3.0)` is exactly 1536 |
| ThumbnailViewModel.DecimateFrom | ECG2/ViewModels/ECGThumbnailViewModel.swift:107-109 | the stride loop from i to limit collects ⌈(limit-i)/4⌉ samples, the k-th being voltages[i+4k] |
| ThumbnailViewModel.ProcessVoltagesForThumbnail | ECG2/ViewModels/ECGThumbnailViewModel.swift:101-112 | empty gives empty; the length is ⌈min(n,1536)/4⌉ ≤ 384; the k-th output is voltages[4k], read only below position min(n,1536) |
| ThumbnailViewModel.ThumbnailReadsOnlyScanWindow | ECG2/ViewModels/ECGThumbnailViewModel.swift:107 | two buffers of at least 1536 samples that agree on their first 1536 have the same preview |
| ThumbnailViewModel.ThumbnailIgnoresExtension | ECG2/ViewModels/ECGThumbnailViewModel.swift:107 | extending a buffer of at least 1536 samples does not change its preview |
| ThumbnailViewModel.PreviewStep | ECG2/ViewModels/ECGThumbnailViewModel.swift:72-85 | one callback appends its Lead I voltage, if any, to the buffer; it stores the new buffer exactly on `.done` or on a Lead I measurement that leaves ≥ 1536 samples; `.error` and measurements without Lead I change nothing |
| ThumbnailViewModel.PreviewRun | ECG2/ViewModels/ECGThumbnailViewModel.swift:64-86 | the callback folded over the stream from an empty buffer; each callback adds at most one voltage and triggers at most one store |
| ThumbnailViewModel.PreviewRunInvariant | ECG2/ViewModels/ECGThumbnailViewModel.swift:65-80 | the buffer is exactly the stream's Lead I voltages in arrival order; every stored snapshot is a prefix of it; while only measurements have arrived, every snapshot holds ≥ 1536 samples |
| ThumbnailViewModel.AllPreviewsIdentical | ECG2/ViewModels/ECGThumbnailViewModel.swift:72-82 | when only the last callback may be `.done`/`.error`, every stored preview equals the preview of the whole buffer, so all stores of one recording write the same value |
| ThumbnailViewModel.PreviewStoreCount | ECG2/ViewModels/ECGThumbnailViewModel.swift:76-79 | n Lead I measurements trigger max(0, n-1535) stores: one at the 1536th sample and one per later sample |
| ThumbnailViewModel.PreviewStoresIffThreshold | ECG2/ViewModels/ECGThumbnailViewModel.swift:72-80 | over measurements only, some store happens iff at least 1536 Lead I voltages arrived |
| ThumbnailViewModel.PreviewStoresIff | ECG2/ViewModels/ECGThumbnailViewModel.swift:72-85 | on a stream ending at its only terminal callback, some store happens iff 1536 voltages arrived or the stream ended with `.done` |
| ThumbnailViewModel.StoppingPreviewStep | ECG2/ViewModels/ECGThumbnailViewModel.swift:75-78 | corrected callback: once 1536 samples are held, every later callback is ignored; before that, it behaves as the source's callback |
| ThumbnailViewModel.StoppingMeasurementsInvariant | ECG2/ViewModels/ECGThumbnailViewModel.swift:75-78 | over measurements only, the corrected fetch holds the first min(n,1536) voltages and stores exactly once iff 1536 arrived |
| ThumbnailViewModel.StoppingPreviewRunResult | ECG2/ViewModels/ECGThumbnailViewModel.swift:75-82 | the corrected fetch keeps exactly the first three seconds and stores at most once: exactly once iff 1536 voltages arrived or the stream completed |
| ThumbnailViewModel.StoppingPreviewAgrees | ECG2/ViewModels/ECGThumbnailViewModel.swift:72-85 | the source's fetch stores iff the corrected one does, and every preview it stores equals the corrected fetch's single preview |
| ThumbnailViewModel.RepeatedStoresExample | ECG2/ViewModels/ECGThumbnailViewModel.swift:76-82 | 1537 Lead I measurements followed by `.done` make the source store three times and the corrected fetch once |
| ThumbnailViewModel.StoreThumbnail | ECG2/ViewModels/ECGThumbnailViewModel.swift:91-98 | the write sets the recording's entry to the decimated buffer, adds only that key, and leaves every other entry unchanged |
| ThumbnailViewModel.ApplyStores | ECG2/ViewModels/ECGThumbnailViewModel.swift:91-98 | applying a fetch's stores in trigger order leaves the map unchanged if there are none; otherwise the result is the map with only this recording's entry set to the last store's preview |
| ThumbnailViewModel.FetchThreeSecondPreview | ECG2/ViewModels/ECGThumbnailViewModel.swift:64-98 | one recording's fetch writes at most its own key and leaves every other entry unchanged |
| ThumbnailViewModel.FetchThreeSecondPreviewResult | ECG2/ViewModels/ECGThumbnailViewModel.swift:64-98 | after a well-formed stream, other recordings' entries are untouched; if any store happened, the entry (new or overwritten by a refetch) is the preview of everything collected, and it has 384 samples once 1536 voltages arrived; a `.done` stream always stores; with no store the map is unchanged |
| ThumbnailViewModel.StoresCommute | ECG2/ViewModels/ECGThumbnailViewModel.swift:95 | two single stores for different recordings commute |
| ThumbnailViewModel.ApplyStoresCommute | ECG2/ViewModels/ECGThumbnailViewModel.swift:91-98 | the whole store sequences of two different recordings, applied one block after the other, commute |
| ThumbnailViewModel.FetchesCommute | ECG2/ViewModels/ECGThumbnailViewModel.swift:64-98 | two complete preview fetches for different recordings give the same map in either order |
| DetailViewModel.ProcessVoltagesForDetail | ECG2/ViewModels/ECGDetailViewModel.swift:60-63 | smoothing keeps the length; buffers of ≤ 5 samples (and the empty one) pass through unchanged |
| DetailViewModel.DetailSmoothingIsMovingAverage | ECG2/ViewModels/ECGDetailViewModel.swift:61-62 | the empty-input guard is redundant: the result is always the window-5 moving average |
| DetailViewModel.RRIntervals | ECG2/ViewModels/ECGDetailViewModel.swift:69-74 | exactly count-1 intervals; interval i-1 is (peaks[i]-peaks[i-1]) / samplingRate × 1000 |
| DetailViewModel.IntervalAdd | ECG2/ViewModels/ECGDetailViewModel.swift:71-72 | the intervals a→b and b→c add up to a→c |
| DetailViewModel.RRIntervalsTelescope | ECG2/ViewModels/ECGDetailViewModel.swift:69-76 | the intervals sum to the first-to-last interval (peaks[last]-peaks[0]) / samplingRate × 1000 |
| DetailViewModel.CalculateAverageRRInterval | ECG2/ViewModels/ECGDetailViewModel.swift:66-77 | absent (not 0) iff fewer than two peaks; otherwise the mean of the intervals, which equals the first-to-last interval divided by count-1 |
| DetailViewModel.AverageRRIntervalPositive | ECG2/ViewModels/ECGDetailViewModel.swift:70-76 | strictly increasing peaks at a positive rate give a present, positive mean interval |
| DetailViewModel.AverageRRIntervalExample | ECG2/ViewModels/ECGDetailViewModel.swift:66-77 | peaks 100, 200, 300 at 512 Hz give intervals [195.3125, 195.3125] and mean 195.3125 ms |
| DetailViewModel.DetailStep | ECG2/ViewModels/ECGDetailViewModel.swift:27-54 | a measurement only appends its Lead I voltage and publishes nothing; `.error` only clears `isLoading`; `.done` publishes the smoothed buffer, the detector's peaks on that trace and their mean interval, and clears `isLoading` |
| DetailViewModel.FetchVoltages | ECG2/ViewModels/ECGDetailViewModel.swift:22-57 | the fetch starts with an empty buffer and `isLoading` set; each callback adds at most one voltage; a stream ending in `.done` or `.error` leaves `isLoading` false |
| DetailViewModel.FetchAccumulates | ECG2/ViewModels/ECGDetailViewModel.swift:24-31 | the buffer is exactly the stream's Lead I voltages in arrival order |
| DetailViewModel.NothingPublishedBeforeDone | ECG2/ViewModels/ECGDetailViewModel.swift:22-54 | without `.done`, voltages, rPeaks and averageRRInterval keep their prior values, and `isLoading` stays true iff no `.error` arrived |
| DetailViewModel.DonePublishesConsistentView | ECG2/ViewModels/ECGDetailViewModel.swift:32-50 | a stream ending in `.done` publishes the smoothed buffer of all Lead I voltages (same length), the detector's peaks on that trace and their mean interval |
| DetailViewModel.DonePeaksIndexTrace | ECG2/ViewModels/ECGDetailViewModel.swift:38-47 | if the detector returns strictly increasing indices within its input, the published peaks are valid indices into the published trace and a present mean interval is positive |

## Left out

- HealthKit authorisation, `HKSampleQuery` and `HKElectrocardiogramQuery` execution, and `getECGFromHealthStore`: framework I/O. The query's output is the input event sequence. The thumbnail model's `ecgs` list and its `isLoading` flag belong to that query and are not modelled.
- Unit conversion through `HKQuantity.doubleValue(for: .volt())`: a Lead I value is already a `real` in volts.
- `DispatchQueue` hops and `[weak self]`: each publish is one atomic state update. If the view model is gone, nothing is written, so the `?? voltages` fallbacks have no observable effect and are not modelled.
- ThumbnailViewModel.ApplyStores: the stores of one fetch are assumed to reach the map in trigger order. `processAndStoreThumbnail` hops through a global queue and then the main queue, so they could land in another order. For a well-formed stream `AllPreviewsIdentical` makes the order immaterial, since every store writes the same preview.
- ThumbnailViewModel.FetchesCommute: fetches for different recordings are shown to commute as whole blocks. Stores of two fetches interleaved one by one are not modelled.
- PeakSwift's `QRSDetector` and its algorithm selector: the detector is the parameter `detect` of type `(seq<real>, real) -> seq<int>`. Its output is not checked by the source. Lemmas that need the detector's contract (strictly increasing indices within the trace) take it as a hypothesis.
- IEEE-754 rounding, infinities and NaN: all arithmetic is exact over `real`.
- Swift `Int` overflow (for example `peaks[i] - peaks[i-1]`): integers are unbounded.
- DetailViewModel.CalculateAverageRRInterval: requires samplingRate ≠ 0. With `Double`, a zero rate gives infinities or NaN rather than a trap. The only caller passes 512.
- Error payloads and the `print` of errors: `.error` carries no data in the model.
- All SwiftUI views (detail view, chart with its zoom and pan clamps, list items, grid, thumbnail view, cards), date and duration formatting, and the classification description and colour table: presentation code.

## Findings

| source | as written | input that shows it | evidently intended | confidence | as-written member | corrected member |
|---|---|---|---|---|---|---|
| ECG2/ViewModels/ECGThumbnailViewModel.swift:75-78 | the `return` after the threshold store leaves only the current callback; the query keeps delivering, so every later Lead I measurement and `.done` calls `processAndStoreThumbnail` again | 1537 Lead I measurements then `.done`: three stores | stop collecting after the first 1536 samples and store once | medium, not executed | ThumbnailViewModel.RepeatedStoresExample | ThumbnailViewModel.StoppingPreviewRunResult |

The extra stores are wasted work, not wrong output. The decimation reads only
the first 1536 positions, so `StoppingPreviewAgrees` proves that every
repeated store writes the corrected fetch's single preview. The keyed map
therefore ends the same either way, and `FetchThreeSecondPreview` keeps the
source's behaviour.
