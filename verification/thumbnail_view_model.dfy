/**
 * The preview profile of `ECGThumbnailViewModel`: accumulate Lead I voltages
 * from the query callbacks, hand the buffer to the store step once three
 * seconds are collected (and again on `.done`), decimate it by four over its
 * first 1536 positions, and write the result under the recording's UUID.
 */
module ThumbnailViewModel {
  import opened Optional
  import opened EcgQuery

  /** Identifier of one recording (the `uuid` of the sample). */
  type Uuid = nat

  /** The preview map published by the view model: recording identifier to preview series. */
  type PreviewMap = map<Uuid, seq<real>>

  /** Apple Watch ECG sampling rate, in samples per second. */
  const PreviewSamplingRate: real := 512.0

  /** Length of a preview, in seconds. */
  const PreviewDuration: real := 3.0

  /** Take every fourth sample. */
  const ThumbnailStride: nat := 4

  /** Number of input positions the decimation scans, written as a literal in the source. */
  const ThumbnailScanLimit: nat := 1536

  /** `Int(samplingRate * desiredDuration)`: the conversion truncates, and the product is exact. */
  function SamplesToCollect(): (n: int)
    ensures n == 1536
    ensures n as real == PreviewSamplingRate * PreviewDuration
  {
    (PreviewSamplingRate * PreviewDuration).Floor
  }

  // ---------------------------------------------------------------------------
  // Decimation
  // ---------------------------------------------------------------------------

  /** `stride(from: i, to: limit, by: 4)`, collecting the sample at each visited position. */
  function DecimateFrom(voltages: seq<real>, i: nat, limit: nat): (r: seq<real>)
    requires limit <= |voltages|
    ensures i <= limit ==> |r| == (limit - i + ThumbnailStride - 1) / ThumbnailStride
    ensures i >= limit ==> r == []
    ensures forall k :: 0 <= k < |r| ==> i + ThumbnailStride * k < limit && r[k] == voltages[i + ThumbnailStride * k]
    decreases limit - i
  {
    if i >= limit then []
    else [voltages[i]] + DecimateFrom(voltages, i + ThumbnailStride, limit)
  }

  /** Number of input positions the decimation of an `n`-sample buffer visits. */
  function ScanEnd(n: nat): nat
  {
    if n < ThumbnailScanLimit then n else ThumbnailScanLimit
  }

  /** `processVoltagesForThumbnail`: every fourth sample of the first 1536 positions. */
  function ProcessVoltagesForThumbnail(voltages: seq<real>): (r: seq<real>)
    ensures |voltages| == 0 ==> r == []
    ensures |r| == (ScanEnd(|voltages|) + ThumbnailStride - 1) / ThumbnailStride
    ensures |r| <= 384
    ensures forall k :: 0 <= k < |r| ==>
      ThumbnailStride * k < ScanEnd(|voltages|) && r[k] == voltages[ThumbnailStride * k]
  {
    if |voltages| == 0 then []
    else DecimateFrom(voltages, 0, ScanEnd(|voltages|))
  }

  /** Two buffers that agree on the 1536 scanned positions have the same preview. */
  lemma ThumbnailReadsOnlyScanWindow(a: seq<real>, b: seq<real>)
    requires |a| >= ThumbnailScanLimit && |b| >= ThumbnailScanLimit
    requires a[..ThumbnailScanLimit] == b[..ThumbnailScanLimit]
    ensures ProcessVoltagesForThumbnail(a) == ProcessVoltagesForThumbnail(b)
  {
    var ra, rb := ProcessVoltagesForThumbnail(a), ProcessVoltagesForThumbnail(b);
    forall k | 0 <= k < |ra|
      ensures ra[k] == rb[k]
    {
      var p := ThumbnailStride * k;
      assert a[p] == a[..ThumbnailScanLimit][p] == b[..ThumbnailScanLimit][p] == b[p];
    }
  }

  /** Extending a buffer that already holds three seconds does not change its preview. */
  lemma ThumbnailIgnoresExtension(voltages: seq<real>, more: seq<real>)
    requires |voltages| >= SamplesToCollect()
    ensures ProcessVoltagesForThumbnail(voltages + more) == ProcessVoltagesForThumbnail(voltages)
  {
    assert (voltages + more)[..ThumbnailScanLimit] == voltages[..ThumbnailScanLimit];
    ThumbnailReadsOnlyScanWindow(voltages + more, voltages);
  }

  // ---------------------------------------------------------------------------
  // The query callback of fetchThreeSecondPreview, as a fold
  // ---------------------------------------------------------------------------

  /**
   * State captured by the callback: the `voltages` buffer, and every buffer
   * snapshot handed to `processAndStoreThumbnail`, oldest first.
   */
  datatype PreviewFetch = PreviewFetch(voltages: seq<real>, stores: seq<seq<real>>)

  /** Whether the callback that produced buffer `buffer` from `e` triggers a store. */
  predicate TriggersStore(e: QueryResult, buffer: seq<real>)
  {
    e.Done? || (e.Measurement? && e.leadI.Some? && |buffer| >= SamplesToCollect())
  }

  /**
   * One callback. The `return` after the threshold store leaves only this
   * call of the closure: the query keeps delivering, and every later
   * measurement (and `.done`) stores again.
   */
  function PreviewStep(s: PreviewFetch, e: QueryResult): (t: PreviewFetch)
    ensures t.voltages == s.voltages + LeadValue(e)
    ensures TriggersStore(e, t.voltages) ==> t.stores == s.stores + [t.voltages]
    ensures !TriggersStore(e, t.voltages) ==> t.stores == s.stores
  {
    match e
    case Measurement(lead) =>
      (match lead
       case None => s
       case Some(v) =>
         var buffer := s.voltages + [v];
         if |buffer| >= SamplesToCollect() then PreviewFetch(buffer, s.stores + [buffer])
         else PreviewFetch(buffer, s.stores))
    case Done => PreviewFetch(s.voltages, s.stores + [s.voltages])
    case Error => s
  }

  /** The callback applied to each result of the stream in order, from an empty buffer. */
  function PreviewRun(events: seq<QueryResult>): (r: PreviewFetch)
    ensures |r.voltages| <= |events|
    ensures |r.stores| <= |events|
  {
    if |events| == 0 then PreviewFetch([], [])
    else PreviewStep(PreviewRun(events[..|events| - 1]), events[|events| - 1])
  }

  /**
   * The buffer grows only by appending Lead I voltages in arrival order, each
   * stored snapshot is a prefix of it, and while only measurements have
   * arrived every snapshot holds at least three seconds.
   */
  lemma {:induction false} PreviewRunInvariant(events: seq<QueryResult>)
    ensures PreviewRun(events).voltages == LeadValues(events)
    ensures forall k :: 0 <= k < |PreviewRun(events).stores| ==>
      PreviewRun(events).stores[k] <= PreviewRun(events).voltages
    ensures AllMeasurements(events) ==>
      forall k :: 0 <= k < |PreviewRun(events).stores| ==> |PreviewRun(events).stores[k]| >= SamplesToCollect()
  {
    if |events| > 0 {
      var init := events[..|events| - 1];
      PreviewRunInvariant(init);
      var s := PreviewRun(init);
      var t := PreviewRun(events);
      forall k | 0 <= k < |t.stores|
        ensures t.stores[k] <= t.voltages
      {
        if k < |s.stores| {
          assert t.stores[k] == s.stores[k];
        }
      }
      if AllMeasurements(events) {
        assert AllMeasurements(init) by {
          forall k | 0 <= k < |init| ensures init[k].Measurement? {
            assert init[k] == events[k];
          }
        }
        forall k | 0 <= k < |t.stores|
          ensures |t.stores[k]| >= SamplesToCollect()
        {
          if k < |s.stores| {
            assert t.stores[k] == s.stores[k];
          }
        }
      }
    }
  }

  /** A stored snapshot that is the whole buffer, or a prefix of at least three seconds, has the buffer's preview. */
  lemma SnapshotPreview(snap: seq<real>, buffer: seq<real>)
    requires snap <= buffer
    requires snap == buffer || |snap| >= SamplesToCollect()
    ensures ProcessVoltagesForThumbnail(snap) == ProcessVoltagesForThumbnail(buffer)
  {
    if snap != buffer {
      assert buffer == snap + buffer[|snap|..];
      ThumbnailIgnoresExtension(snap, buffer[|snap|..]);
    }
  }

  /**
   * In a stream where only the last callback may be `.done` or `.error`,
   * every stored preview is the preview of the whole buffer: the repeated
   * stores all write the same value.
   */
  lemma AllPreviewsIdentical(events: seq<QueryResult>)
    requires EndsAtTerminal(events)
    ensures forall k :: 0 <= k < |PreviewRun(events).stores| ==>
      ProcessVoltagesForThumbnail(PreviewRun(events).stores[k]) == ProcessVoltagesForThumbnail(LeadValues(events))
    ensures forall j, k :: 0 <= j < |PreviewRun(events).stores| && 0 <= k < |PreviewRun(events).stores| ==>
      ProcessVoltagesForThumbnail(PreviewRun(events).stores[j]) == ProcessVoltagesForThumbnail(PreviewRun(events).stores[k])
  {
    var t := PreviewRun(events);
    PreviewRunInvariant(events);
    if |events| > 0 {
      var init := events[..|events| - 1];
      var s := PreviewRun(init);
      PreviewRunInvariant(init);
      assert AllMeasurements(init) by {
        forall k | 0 <= k < |init| ensures init[k].Measurement? {
          assert init[k] == events[k];
        }
      }
      assert t == PreviewStep(s, events[|events| - 1]);
      forall k | 0 <= k < |t.stores|
        ensures ProcessVoltagesForThumbnail(t.stores[k]) == ProcessVoltagesForThumbnail(t.voltages)
      {
        if k < |s.stores| {
          // An earlier threshold store: at least three seconds.
          assert t.stores[k] == s.stores[k];
        }
        SnapshotPreview(t.stores[k], t.voltages);
      }
    }
  }

  /** Number of stores a stream of `n` Lead I measurements triggers: one per sample from the 1536th on. */
  lemma {:induction false} PreviewStoreCount(events: seq<QueryResult>)
    requires AllLeadMeasurements(events)
    ensures |PreviewRun(events).voltages| == |events|
    ensures |PreviewRun(events).stores| == if |events| < SamplesToCollect() then 0 else |events| - SamplesToCollect() + 1
  {
    if |events| > 0 {
      var init := events[..|events| - 1];
      assert AllLeadMeasurements(init) by {
        forall k | 0 <= k < |init| ensures init[k].Measurement? && init[k].leadI.Some? {
          assert init[k] == events[k];
        }
      }
      PreviewStoreCount(init);
    }
  }

  // ---------------------------------------------------------------------------
  // A variant that stops at the threshold, as the source's comment intends
  // ---------------------------------------------------------------------------

  /**
   * One callback of a preview fetch that really stops after three seconds:
   * once the buffer holds `SamplesToCollect()` samples, every later callback
   * (including `.done`) is ignored.
   */
  function StoppingPreviewStep(s: PreviewFetch, e: QueryResult): (t: PreviewFetch)
    ensures |s.voltages| >= SamplesToCollect() ==> t == s
    ensures |s.voltages| < SamplesToCollect() ==> t == PreviewStep(s, e)
  {
    if |s.voltages| >= SamplesToCollect() then s else PreviewStep(s, e)
  }

  function StoppingPreviewRun(events: seq<QueryResult>): PreviewFetch
  {
    if |events| == 0 then PreviewFetch([], [])
    else StoppingPreviewStep(StoppingPreviewRun(events[..|events| - 1]), events[|events| - 1])
  }

  /** Over measurements only, the stopping fetch keeps the first three seconds and stores once they are complete. */
  lemma {:induction false} StoppingMeasurementsInvariant(events: seq<QueryResult>)
    requires AllMeasurements(events)
    ensures StoppingPreviewRun(events).voltages == LeadValues(events)[..ScanEnd(|LeadValues(events)|)]
    ensures |StoppingPreviewRun(events).stores| == if |LeadValues(events)| >= SamplesToCollect() then 1 else 0
    ensures |StoppingPreviewRun(events).stores| == 1 ==>
      StoppingPreviewRun(events).stores[0] == StoppingPreviewRun(events).voltages
  {
    if |events| > 0 {
      var init := events[..|events| - 1];
      assert AllMeasurements(init) by {
        forall k | 0 <= k < |init| ensures init[k].Measurement? {
          assert init[k] == events[k];
        }
      }
      StoppingMeasurementsInvariant(init);
      var lv := LeadValues(init);
      assert LeadValues(events) == lv + LeadValue(events[|events| - 1]);
    }
  }

  /**
   * On a stream where only the last callback may end it, the stopping fetch
   * keeps exactly the first three seconds, and stores exactly once when
   * three seconds arrived or the stream completed, never more.
   */
  lemma StoppingPreviewRunResult(events: seq<QueryResult>)
    requires EndsAtTerminal(events)
    ensures StoppingPreviewRun(events).voltages == LeadValues(events)[..ScanEnd(|LeadValues(events)|)]
    ensures |StoppingPreviewRun(events).stores| <= 1
    ensures |StoppingPreviewRun(events).stores| == 1 <==>
      (|LeadValues(events)| >= SamplesToCollect() || (|events| > 0 && events[|events| - 1].Done?))
    ensures |StoppingPreviewRun(events).stores| == 1 ==>
      StoppingPreviewRun(events).stores[0] == StoppingPreviewRun(events).voltages
  {
    if |events| > 0 {
      var init := events[..|events| - 1];
      assert AllMeasurements(init) by {
        forall k | 0 <= k < |init| ensures init[k].Measurement? {
          assert init[k] == events[k];
        }
      }
      StoppingMeasurementsInvariant(init);
      assert LeadValues(events) == LeadValues(init) + LeadValue(events[|events| - 1]);
    }
  }

  /** Over measurements only, the as-written fetch stores once three seconds are collected. */
  lemma {:induction false} PreviewStoresIffThreshold(events: seq<QueryResult>)
    requires AllMeasurements(events)
    ensures |PreviewRun(events).stores| > 0 <==> |LeadValues(events)| >= SamplesToCollect()
  {
    if |events| > 0 {
      var init := events[..|events| - 1];
      assert AllMeasurements(init) by {
        forall k | 0 <= k < |init| ensures init[k].Measurement? {
          assert init[k] == events[k];
        }
      }
      PreviewStoresIffThreshold(init);
      PreviewRunInvariant(init);
    }
  }

  /** The as-written fetch stores at least once exactly when three seconds arrived or the stream completed. */
  lemma PreviewStoresIff(events: seq<QueryResult>)
    requires EndsAtTerminal(events)
    ensures |PreviewRun(events).stores| > 0 <==>
      (|LeadValues(events)| >= SamplesToCollect() || (|events| > 0 && events[|events| - 1].Done?))
  {
    if |events| > 0 {
      var init := events[..|events| - 1];
      assert AllMeasurements(init) by {
        forall k | 0 <= k < |init| ensures init[k].Measurement? {
          assert init[k] == events[k];
        }
      }
      PreviewStoresIffThreshold(init);
      PreviewRunInvariant(init);
      assert LeadValues(events) == LeadValues(init) + LeadValue(events[|events| - 1]);
    }
  }

  /**
   * The source's repeated stores and the stopping fetch publish the same
   * preview: the as-written fetch stores at least once exactly when the
   * stopping one stores, and every preview it stores equals that one store.
   */
  lemma StoppingPreviewAgrees(events: seq<QueryResult>)
    requires EndsAtTerminal(events)
    ensures |PreviewRun(events).stores| > 0 <==> |StoppingPreviewRun(events).stores| == 1
    ensures forall k :: 0 <= k < |PreviewRun(events).stores| ==>
      ProcessVoltagesForThumbnail(PreviewRun(events).stores[k])
        == ProcessVoltagesForThumbnail(StoppingPreviewRun(events).stores[0])
  {
    var lv := LeadValues(events);
    AllPreviewsIdentical(events);
    PreviewStoresIff(events);
    StoppingPreviewRunResult(events);
    if |lv| >= SamplesToCollect() {
      assert lv == lv[..ScanEnd(|lv|)] + lv[ScanEnd(|lv|)..];
      ThumbnailIgnoresExtension(lv[..ScanEnd(|lv|)], lv[ScanEnd(|lv|)..]);
    } else {
      assert lv[..ScanEnd(|lv|)] == lv;
    }
  }

  /**
   * 1537 Lead I measurements and `.done`: the as-written fetch stores three
   * times (at the 1536th sample, the 1537th and `.done`), the stopping fetch once.
   */
  lemma RepeatedStoresExample()
    ensures |PreviewRun(seq(1537, _ => Measurement(Some(0.0))) + [Done]).stores| == 3
    ensures |StoppingPreviewRun(seq(1537, _ => Measurement(Some(0.0))) + [Done]).stores| == 1
  {
    var events: seq<QueryResult> := seq(1537, _ => Measurement(Some(0.0)));
    assert AllLeadMeasurements(events);
    PreviewStoreCount(events);
    LeadValuesOfLeadMeasurements(events);
    StoppingMeasurementsInvariant(events);
    assert (events + [Done])[..|events|] == events;
  }

  // ---------------------------------------------------------------------------
  // Keyed publication
  // ---------------------------------------------------------------------------

  /** `processAndStoreThumbnail`: `previewVoltages[ecg.uuid] = processVoltagesForThumbnail(voltages)`. */
  function StoreThumbnail(previews: PreviewMap, id: Uuid, voltages: seq<real>): (m: PreviewMap)
    ensures m.Keys == previews.Keys + {id}
    ensures m[id] == ProcessVoltagesForThumbnail(voltages)
    ensures forall other :: other in previews && other != id ==> m[other] == previews[other]
  {
    previews[id := ProcessVoltagesForThumbnail(voltages)]
  }

  /** The stores of one fetch, applied in the order they were triggered. */
  function ApplyStores(previews: PreviewMap, id: Uuid, stores: seq<seq<real>>): (m: PreviewMap)
    ensures |stores| == 0 ==> m == previews
    ensures |stores| > 0 ==> m.Keys == previews.Keys + {id}
    ensures |stores| > 0 ==> m[id] == ProcessVoltagesForThumbnail(stores[|stores| - 1])
    ensures |stores| > 0 ==> m == previews[id := ProcessVoltagesForThumbnail(stores[|stores| - 1])]
    ensures forall other :: other in previews && other != id ==> m[other] == previews[other]
  {
    if |stores| == 0 then previews
    else StoreThumbnail(ApplyStores(previews, id, stores[..|stores| - 1]), id, stores[|stores| - 1])
  }

  /** `fetchThreeSecondPreview` for one recording: run the query stream and apply its stores. */
  function FetchThreeSecondPreview(previews: PreviewMap, id: Uuid, events: seq<QueryResult>): (m: PreviewMap)
    ensures m.Keys <= previews.Keys + {id}
    ensures forall other :: other in previews && other != id ==> other in m && m[other] == previews[other]
  {
    ApplyStores(previews, id, PreviewRun(events).stores)
  }

  /**
   * After a well-formed stream the preview map holds, for this recording, the
   * preview of everything collected (384 samples once three seconds arrived),
   * and every other recording's entry is untouched.
   */
  lemma FetchThreeSecondPreviewResult(previews: PreviewMap, id: Uuid, events: seq<QueryResult>)
    requires EndsAtTerminal(events)
    ensures forall other :: other in previews && other != id ==>
      other in FetchThreeSecondPreview(previews, id, events)
      && FetchThreeSecondPreview(previews, id, events)[other] == previews[other]
    ensures |events| > 0 && events[|events| - 1].Done? ==>
      id in FetchThreeSecondPreview(previews, id, events)
    ensures |PreviewRun(events).stores| > 0 ==>
      id in FetchThreeSecondPreview(previews, id, events)
      && FetchThreeSecondPreview(previews, id, events)[id] == ProcessVoltagesForThumbnail(LeadValues(events))
    ensures |PreviewRun(events).stores| == 0 ==> FetchThreeSecondPreview(previews, id, events) == previews
    ensures |LeadValues(events)| >= SamplesToCollect() ==>
      id in FetchThreeSecondPreview(previews, id, events)
      && |FetchThreeSecondPreview(previews, id, events)[id]| == 384
  {
    AllPreviewsIdentical(events);
    PreviewStoresIff(events);
  }

  /** Two single stores for different recordings commute. */
  lemma StoresCommute(previews: PreviewMap, id1: Uuid, a: seq<real>, id2: Uuid, b: seq<real>)
    requires id1 != id2
    ensures StoreThumbnail(StoreThumbnail(previews, id1, a), id2, b)
         == StoreThumbnail(StoreThumbnail(previews, id2, b), id1, a)
  {
  }

  /** The stores of two fetches for different recordings commute as blocks. */
  lemma ApplyStoresCommute(previews: PreviewMap, id1: Uuid, s1: seq<seq<real>>, id2: Uuid, s2: seq<seq<real>>)
    requires id1 != id2
    ensures ApplyStores(ApplyStores(previews, id1, s1), id2, s2)
         == ApplyStores(ApplyStores(previews, id2, s2), id1, s1)
  {
  }

  /** Two complete preview fetches for different recordings commute: applied in either order, the map is the same. */
  lemma FetchesCommute(previews: PreviewMap, id1: Uuid, events1: seq<QueryResult>, id2: Uuid, events2: seq<QueryResult>)
    requires id1 != id2
    ensures FetchThreeSecondPreview(FetchThreeSecondPreview(previews, id1, events1), id2, events2)
         == FetchThreeSecondPreview(FetchThreeSecondPreview(previews, id2, events2), id1, events1)
  {
    ApplyStoresCommute(previews, id1, PreviewRun(events1).stores, id2, PreviewRun(events2).stores);
  }
}
