/**
 * The callback stream of an electrocardiogram query, as both view models
 * consume it: one result per call, in arrival order.
 */
module EcgQuery {
  import opened Optional

  /**
   * One callback: a measurement (whose Lead I voltage, in volts, may be
   * absent), the end of the recording, or a failure.
   */
  datatype QueryResult = Measurement(leadI: Option<real>) | Done | Error

  /** The voltage a single callback contributes to the buffer: nothing unless it carries Lead I. */
  function LeadValue(e: QueryResult): seq<real>
  {
    match e
    case Measurement(Some(v)) => [v]
    case _ => []
  }

  /** Every Lead I voltage of the stream, in arrival order. */
  function LeadValues(events: seq<QueryResult>): (vs: seq<real>)
    ensures |vs| <= |events|
  {
    if |events| == 0 then []
    else LeadValues(events[..|events| - 1]) + LeadValue(events[|events| - 1])
  }

  /** Only the last callback of the stream may be `.done` or `.error`. */
  predicate EndsAtTerminal(events: seq<QueryResult>)
  {
    forall k :: 0 <= k < |events| - 1 ==> events[k].Measurement?
  }

  /** Every callback of the stream is a measurement. */
  predicate AllMeasurements(events: seq<QueryResult>)
  {
    forall k :: 0 <= k < |events| ==> events[k].Measurement?
  }

  /** Every callback of the stream is a measurement carrying Lead I. */
  predicate AllLeadMeasurements(events: seq<QueryResult>)
  {
    forall k :: 0 <= k < |events| ==> events[k].Measurement? && events[k].leadI.Some?
  }

  /** A stream of Lead I measurements contributes one voltage per callback. */
  lemma {:induction false} LeadValuesOfLeadMeasurements(events: seq<QueryResult>)
    requires AllLeadMeasurements(events)
    ensures |LeadValues(events)| == |events|
    ensures forall k :: 0 <= k < |events| ==> LeadValues(events)[k] == events[k].leadI.value
  {
    if |events| > 0 {
      var init := events[..|events| - 1];
      assert AllLeadMeasurements(init) by {
        forall k | 0 <= k < |init| ensures init[k].Measurement? && init[k].leadI.Some? {
          assert init[k] == events[k];
        }
      }
      LeadValuesOfLeadMeasurements(init);
    }
  }
}
