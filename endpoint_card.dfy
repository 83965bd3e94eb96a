/**
 * One endpoint's card on the dashboard: its status badge, the host name of the latest
 * result, the response-time figure, and a health strip over all of its results.
 */
module EndpointCard {
  import opened Wrappers
  import opened Numeric
  import opened Strings
  import opened Types
  import opened Utils
  import opened ResultStats

  /** The defaults of the card's optional props. */
  const DefaultMaxResults: int := 50
  const DefaultShowAverage: bool := true

  function CardStatus(e: EndpointStatus): string
  {
    StatusOf(LatestSuccess(e.results, EndpointSuccess))
  }

  /** The host name of the latest result, or none without results. */
  function Hostname(e: EndpointStatus): (h: Option<string>)
    ensures h.None? <==> e.results == []
    ensures h.Some? ==> h.value == e.results[|e.results| - 1].hostname
  {
    if e.results == [] then None else Some(e.results[|e.results| - 1].hostname)
  }

  /** The figure the card shows, given the measured durations: 'N/A' without any; else
      "~" and the rounded average, or the truncated range. */
  function ResponseTimeFigure(ds: seq<nat>, showAverage: bool): string
  {
    if ds == [] then "N/A"
    else if showAverage then "~" + IntToString(AverageMs(ds)) + "ms"
    else RangeText(ds)
  }

  /**
   * `responseTimeText`: one pass over the results accumulating the total, the count, the
   * least and the greatest of the durations in milliseconds (`min` starts at Infinity,
   * here "no duration seen yet"), skipping results without a duration.
   */
  method ResponseTimeText(results: seq<EndpointResult>, showAverage: bool) returns (text: string)
    ensures text == ResponseTimeFigure(Measured(results), showAverage)
  {
    if |results| == 0 {
      return "N/A";
    }
    var total: nat, count: nat, min: nat, max: nat := 0, 0, 0, 0;
    var i := 0;
    ghost var ds: seq<nat> := [];
    while i < |results|
      invariant 0 <= i <= |results|
      invariant ds == Measured(results[..i])
      invariant total == Sum(ds) && count == |ds|
      invariant count > 0 ==> min == Minimum(ds) && max == Maximum(ds)
    {
      var d := results[i].duration;
      MeasuredStep(results, i);
      if d > 0 {
        AppendStats(ds, d);
        total := total + d;
        min := if count == 0 then d else Min(min, d);
        max := if count == 0 then d else Max(max, d);
        count := count + 1;
        ds := ds + [d];
      }
      i := i + 1;
    }
    assert results[..i] == results;
    if count == 0 {
      return "N/A";
    }
    if showAverage {
      text := "~" + IntToString(RoundDiv(total, count * NsPerMs)) + "ms";
    } else {
      text := RangeOf(min / NsPerMs, max / NsPerMs);
    }
  }

  /** The figure is 'N/A' exactly when no result has a duration; otherwise the average
      reads back as the rounded mean and lies within the range, and the range reads back
      as its lower end, which is at most its upper end. */
  lemma ResponseTimeFigureMeaning(results: seq<EndpointResult>, showAverage: bool)
    ensures var ds := Measured(results);
      && (ResponseTimeFigure(ds, showAverage) == "N/A" <==>
            forall i :: 0 <= i < |results| ==> results[i].duration == 0)
      && (ds != [] && showAverage ==>
            && ResponseTimeFigure(ds, showAverage) == "~" + IntToString(AverageMs(ds)) + "ms"
            && LowMs(ds) <= AverageMs(ds))
      && (ds != [] && !showAverage ==>
            ParseInt(ResponseTimeFigure(ds, showAverage)) == Some(LowMs(ds)) && LowMs(ds) <= HighMs(ds))
  {
    var ds := Measured(results);
    MeasuredEmpty(results);
    if ds != [] {
      AverageWithinRange(ds);
      RangeTextReadsBack(ds);
      RangeOrdered(ds);
      NotNA(ds, showAverage);
    }
  }

  /** With a measured duration the figure ends in "ms", so it is never 'N/A'. */
  lemma NotNA(ds: seq<nat>, showAverage: bool)
    requires ds != []
    ensures ResponseTimeFigure(ds, showAverage) != "N/A"
  {
    EndsInMs("~" + IntToString(AverageMs(ds)));
    RangeEndsInMs(LowMs(ds), HighMs(ds));
  }
}
