/**
 * The page of one endpoint: the event history with its labels, the response-time figures,
 * the status of the latest result, the paging of results, and the latch that shows the
 * trend chart. The page's tooltip is `TooltipHost.Host`, the same machine as the dashboard's.
 */
module EndpointDetail {
  import opened Wrappers
  import opened Numeric
  import opened Strings
  import opened Types
  import opened Utils
  import opened ResultStats

  /** `PAGE_SIZE`: results fetched per page. */
  const PageSize: nat := 50

  /** One event with the two texts the history shows for it. */
  datatype ProcessedEvent = ProcessedEvent(event: EndpointEvent, fancyText: string, fancyTimeAgo: string)

  /** The label of the newest event: the endpoint's current state. */
  function NewestEventText(t: EventType): string
  {
    match t
    case Unhealthy => "Endpoint is unhealthy"
    case Healthy => "Endpoint is healthy"
    case Start => "Monitoring started"
  }

  /** The label of an older event; an unhealthy spell is measured up to the event after it. */
  function OlderEventText(ev: EndpointEvent, next: EndpointEvent): string
  {
    match ev.eventType
    case Healthy => "Endpoint became healthy"
    case Unhealthy => "Endpoint was unhealthy for " + TimeDifference(next.timestamp, ev.timestamp)
    case Start => "Monitoring started"
  }

  /** The age shown beside an event, as `formatTimeAgo` gives it. */
  function EventAge(ev: EndpointEvent, now: int): string
  {
    TimeAgo(now - ev.timestamp)
  }

  /** Event `i` as the history shows it. */
  function Labelled(events: seq<EndpointEvent>, i: nat, now: int): ProcessedEvent
    requires i < |events|
  {
    var ev := events[i];
    var text := if i == |events| - 1 then NewestEventText(ev.eventType) else OlderEventText(ev, events[i + 1]);
    ProcessedEvent(ev, text, EventAge(ev, now))
  }

  /** The history: every event, newest first, each labelled. */
  function History(events: seq<EndpointEvent>, now: int): (p: seq<ProcessedEvent>)
    ensures |p| == |events|
  {
    seq(|events|, k requires 0 <= k < |events| => Labelled(events, |events| - 1 - k, now))
  }

  /**
   * The event loop of `fetchData`: from the last (newest) event down to the first, push
   * the event with its label and its age.
   */
  method ProcessEvents(events: seq<EndpointEvent>, now: int) returns (processed: seq<ProcessedEvent>)
    ensures processed == History(events, now)
  {
    processed := [];
    var i := |events| - 1;
    ghost var h := History(events, now);
    while i >= 0
      invariant -1 <= i < |events|
      invariant processed == h[..|events| - 1 - i]
    {
      var ev := events[i];
      var fancyText := "";
      if i == |events| - 1 {
        fancyText := if ev.eventType == Unhealthy then "Endpoint is unhealthy"
          else if ev.eventType == Healthy then "Endpoint is healthy" else "Monitoring started";
        assert fancyText == NewestEventText(ev.eventType);
      } else {
        if ev.eventType == Healthy {
          fancyText := "Endpoint became healthy";
        } else if ev.eventType == Unhealthy {
          var next := events[i + 1];
          fancyText := "Endpoint was unhealthy for " + TimeDifference(next.timestamp, ev.timestamp);
        } else {
          fancyText := "Monitoring started";
        }
        assert fancyText == OlderEventText(ev, events[i + 1]);
      }
      LabelledText(events, i, now, fancyText);
      var item := ProcessedEvent(ev, fancyText, EventAge(ev, now));
      HistoryGrows(events, now, i);
      processed := processed + [item];
      i := i - 1;
    }
    WholePrefix(h);
  }

  lemma WholePrefix(h: seq<ProcessedEvent>)
    ensures h[..|h|] == h
  {
  }

  lemma LabelledText(events: seq<EndpointEvent>, i: nat, now: int, fancyText: string)
    requires i < |events|
    requires i == |events| - 1 ==> fancyText == NewestEventText(events[i].eventType)
    requires i < |events| - 1 ==> fancyText == OlderEventText(events[i], events[i + 1])
    ensures ProcessedEvent(events[i], fancyText, EventAge(events[i], now)) == Labelled(events, i, now)
  {
  }

  /** One step of the loop: the newest-first prefix grows by event `i`. */
  lemma HistoryGrows(events: seq<EndpointEvent>, now: int, i: nat)
    requires i < |events|
    ensures History(events, now)[..|events| - i] == History(events, now)[..|events| - 1 - i] + [Labelled(events, i, now)]
  {
    var h := History(events, now);
    assert h[|events| - 1 - i] == Labelled(events, i, now);
    assert h[..|events| - i] == h[..|events| - 1 - i] + [h[|events| - 1 - i]];
  }

  /** The history lists every event once, newest first, each with its age. */
  lemma HistoryOrder(events: seq<EndpointEvent>, now: int)
    ensures var p := History(events, now);
      && (forall k :: 0 <= k < |p| ==> p[k].event == events[|events| - 1 - k])
      && (forall k :: 0 <= k < |p| ==> p[k].fancyTimeAgo == EventAge(p[k].event, now))
  {
    var p := History(events, now);
    forall k | 0 <= k < |p|
      ensures p[k].event == events[|events| - 1 - k]
      ensures p[k].fancyTimeAgo == EventAge(p[k].event, now)
    {
      HistoryAt(events, now, k);
    }
  }

  /**
   * The first entry of the history states the current state, and every later entry is
   * labelled against the entry shown just above it (the next event in time): an unhealthy
   * one gives the time from it to that entry.
   */
  lemma HistoryTexts(events: seq<EndpointEvent>, now: int)
    ensures var p := History(events, now);
      && (|p| > 0 ==> p[0].fancyText == NewestEventText(p[0].event.eventType))
      && (forall k :: 0 < k < |p| ==> p[k].fancyText == OlderEventText(p[k].event, p[k - 1].event))
  {
    var p := History(events, now);
    if |p| > 0 {
      HistoryAt(events, now, 0);
    }
    forall k | 0 < k < |p|
      ensures p[k].fancyText == OlderEventText(p[k].event, p[k - 1].event)
    {
      var i := |events| - 1 - k;
      HistoryAt(events, now, k);
      HistoryAt(events, now, k - 1);
      assert p[k] == Labelled(events, i, now) && p[k - 1] == Labelled(events, i + 1, now);
      assert p[k - 1].event == events[i + 1];
    }
  }

  /** Entry `k` of the history is event `|events| - 1 - k` with its label. */
  lemma HistoryAt(events: seq<EndpointEvent>, now: int, k: nat)
    requires k < |events|
    ensures History(events, now)[k] == Labelled(events, |events| - 1 - k, now)
  {
  }

  /** Each newest-event label names its type, and the three are distinct. */
  lemma NewestEventTextCases(t: EventType)
    ensures NewestEventText(t) == "Endpoint is unhealthy" <==> t == Unhealthy
    ensures NewestEventText(t) == "Endpoint is healthy" <==> t == Healthy
    ensures NewestEventText(t) == "Monitoring started" <==> t == Start
  {
  }

  /** When the next event is no earlier, the unhealthy spell's text reads back as a
      figure that is not negative. */
  lemma UnhealthySpellNotNegative(ev: EndpointEvent, next: EndpointEvent)
    requires ev.eventType == Unhealthy && ev.timestamp <= next.timestamp
    ensures var d := TimeDifference(next.timestamp, ev.timestamp);
      && OlderEventText(ev, next) == "Endpoint was unhealthy for " + d
      && ParseInt(d).Some? && ParseInt(d).value >= 0
  {
    TimeDifferenceLeads(next.timestamp, ev.timestamp);
    SpanNotNegative(next.timestamp - ev.timestamp);
  }

  // ---------------------------------------------------------------------------------
  // Response-time figures

  /** "Avg Response Time": the rounded mean of the measured durations with "ms", or 'N/A'. */
  function AverageFigure(ds: seq<nat>): string
  {
    if ds == [] then "N/A" else IntToString(AverageMs(ds)) + "ms"
  }

  /** "Response Time Range": the truncated least and greatest durations, or 'N/A'. */
  function RangeFigure(ds: seq<nat>): string
  {
    if ds == [] then "N/A" else RangeText(ds)
  }

  /** `avgResponseTime`: total and count over the results with a duration. */
  method AverageResponseTime(results: seq<EndpointResult>) returns (text: string)
    ensures text == AverageFigure(Measured(results))
  {
    if |results| == 0 {
      return "N/A";
    }
    var total: nat, count: nat := 0, 0;
    var i := 0;
    ghost var ds: seq<nat> := [];
    while i < |results|
      invariant 0 <= i <= |results|
      invariant ds == Measured(results[..i])
      invariant total == Sum(ds) && count == |ds|
    {
      var d := results[i].duration;
      MeasuredStep(results, i);
      if d > 0 {
        AppendStats(ds, d);
        total := total + d;
        count := count + 1;
        ds := ds + [d];
      }
      i := i + 1;
    }
    assert results[..i] == results;
    if count == 0 {
      return "N/A";
    }
    text := IntToString(RoundDiv(total, count * NsPerMs)) + "ms";
  }

  /** `responseTimeRange`: least and greatest over the results with a duration; `min`
      starts at Infinity, here "no duration seen yet" (`hasData`). */
  method ResponseTimeRange(results: seq<EndpointResult>) returns (text: string)
    ensures text == RangeFigure(Measured(results))
  {
    if |results| == 0 {
      return "N/A";
    }
    var min: nat, max: nat, hasData := 0, 0, false;
    var i := 0;
    ghost var ds: seq<nat> := [];
    while i < |results|
      invariant 0 <= i <= |results|
      invariant ds == Measured(results[..i])
      invariant hasData <==> ds != []
      invariant hasData ==> min == Minimum(ds) && max == Maximum(ds)
    {
      var d := results[i].duration;
      MeasuredStep(results, i);
      if d > 0 {
        AppendStats(ds, d);
        min := if hasData then Min(min, d) else d;
        max := if hasData then Max(max, d) else d;
        hasData := true;
        ds := ds + [d];
      }
      i := i + 1;
    }
    assert results[..i] == results;
    if !hasData {
      return "N/A";
    }
    text := RangeOf(min / NsPerMs, max / NsPerMs);
  }

  /** Both figures are 'N/A' exactly when no result has a duration; otherwise the average
      reads back as the rounded mean, which lies within the range, and the range reads back
      as its lower end. */
  lemma FiguresMeaning(results: seq<EndpointResult>)
    ensures var ds := Measured(results);
      && (AverageFigure(ds) == "N/A" <==> forall i :: 0 <= i < |results| ==> results[i].duration == 0)
      && (RangeFigure(ds) == "N/A" <==> forall i :: 0 <= i < |results| ==> results[i].duration == 0)
      && (ds != [] ==>
            && ParseInt(AverageFigure(ds)) == Some(AverageMs(ds))
            && ParseInt(RangeFigure(ds)) == Some(LowMs(ds))
            && LowMs(ds) <= AverageMs(ds) <= RoundDiv(Maximum(ds), NsPerMs))
  {
    var ds := Measured(results);
    MeasuredEmpty(results);
    if ds != [] {
      ParseIntOfNumeral(AverageMs(ds), "ms");
      RangeTextReadsBack(ds);
      AverageWithinRange(ds);
      FigureNotNA(ds);
    }
  }

  /** With a measured duration both figures end in "ms", so neither is 'N/A'. */
  lemma FigureNotNA(ds: seq<nat>)
    requires ds != []
    ensures AverageFigure(ds) != "N/A" && RangeFigure(ds) != "N/A"
  {
    EndsInMs(IntToString(AverageMs(ds)));
    RangeEndsInMs(LowMs(ds), HighMs(ds));
  }

  // ---------------------------------------------------------------------------------
  // Status

  /** The health status, from the last result of the latest page-1 fetch. */
  function HealthStatus(currentStatus: Option<EndpointStatus>): string
  {
    StatusOf(if currentStatus.None? then None else LatestSuccess(currentStatus.value.results, EndpointSuccess))
  }

  /** "Current Status": 'Operational' only while healthy. */
  function CurrentStatusText(currentStatus: Option<EndpointStatus>): (s: string)
    ensures s == "Operational" <==>
      currentStatus.Some? && currentStatus.value.results != [] && Last(currentStatus.value.results).success
  {
    if HealthStatus(currentStatus) == "healthy" then "Operational" else "Issues Detected"
  }

  function Last(rs: seq<EndpointResult>): EndpointResult
    requires rs != []
  {
    rs[|rs| - 1]
  }

  /** "Last Check": 'Never' without a latest result. */
  function LastCheckText(currentStatus: Option<EndpointStatus>, now: int): (s: string)
    ensures currentStatus.None? || currentStatus.value.results == [] ==> s == "Never"
    ensures currentStatus.Some? && currentStatus.value.results != [] ==>
      s == TimeAgo(now - Last(currentStatus.value.results).timestamp)
  {
    if currentStatus.None? then "Never" else LastCheck(currentStatus.value.results, now)
  }

  /** True when any result was measured: the condition that shows the trend chart. */
  predicate AnyMeasured(results: seq<EndpointResult>)
  {
    exists i :: 0 <= i < |results| && results[i].duration > 0
  }

  /** The state of one endpoint page. */
  class EndpointDetailView {
    var endpoint: Option<EndpointStatus>
    var currentStatus: Option<EndpointStatus>
    var events: seq<ProcessedEvent>
    var currentPage: int
    var showChart: bool
    var showAvgResponseTime: bool
    var isRefreshing: bool

    /** The page number never drops below 1. */
    predicate Valid()
      reads this
    {
      currentPage >= 1
    }

    constructor()
      ensures Valid() && currentPage == 1
      ensures endpoint.None? && currentStatus.None? && events == []
      ensures !showChart && showAvgResponseTime && !isRefreshing
    {
      endpoint, currentStatus, events := None, None, [];
      currentPage, showChart, showAvgResponseTime, isRefreshing := 1, false, true, false;
    }

    /** The spinner shows until an endpoint with a name has arrived. */
    predicate ShowsLoading()
      reads this
    {
      endpoint.None? || endpoint.value.name == ""
    }

    /** The refresh button is disabled while a fetch is in flight. */
    predicate RefreshDisabled()
      reads this
    {
      isRefreshing
    }

    /** `fetchData` starting: the refresh indicator spins and the button is disabled;
        nothing else changes until the fetch settles. The memoised callback closes over
        the page of the render that issued it, which is returned as `page`. */
    method FetchStarted() returns (page: int)
      modifies this`isRefreshing
      ensures isRefreshing && RefreshDisabled()
      ensures page == currentPage
    {
      isRefreshing := true;
      page := currentPage;
    }

    /** `fetchData` settling: `data` is the fetched status, or `None` when the fetch failed
        (then only the refresh indicator changes). `page` is the page the fetch was issued
        for; the user may have moved to another page while it was in flight, and the
        current status follows the issued page, not the page shown now. */
    method FetchSettled(data: Option<EndpointStatus>, page: int, now: int)
      modifies this
      requires Valid()
      ensures Valid() && currentPage == old(currentPage) && !isRefreshing
      ensures showAvgResponseTime == old(showAvgResponseTime)
      ensures data.None? ==>
        endpoint == old(endpoint) && currentStatus == old(currentStatus) && events == old(events) && showChart == old(showChart)
      ensures data.Some? ==> endpoint == data
      ensures data.Some? && page == 1 ==> currentStatus == data
      ensures data.Some? && page != 1 ==> currentStatus == old(currentStatus)
      ensures data.Some? && data.value.events.Some? && |data.value.events.value| > 0 ==>
        events == History(data.value.events.value, now)
      ensures data.Some? && (data.value.events.None? || data.value.events.value == []) ==> events == old(events)
      ensures showChart == (old(showChart) || (data.Some? && AnyMeasured(data.value.results)))
    {
      isRefreshing := false;
      if data.None? {
        return;
      }
      var d := data.value;
      endpoint := data;
      if page == 1 {
        currentStatus := data;
      }
      if d.events.Some? && |d.events.value| > 0 {
        events := ProcessEvents(d.events.value, now);
      }
      if AnyMeasured(d.results) {
        showChart := true;
      }
    }

    /** "Previous" is disabled on page 1; "Next" when the page is empty or short. */
    predicate PreviousDisabled()
      reads this
    {
      currentPage <= 1
    }

    predicate NextDisabled()
      reads this
    {
      endpoint.None? || |endpoint.value.results| < PageSize
    }

    /** A click on "Previous"; a disabled button does nothing. */
    method ClickPrevious()
      modifies this`currentPage
      requires Valid()
      ensures Valid()
      ensures old(PreviousDisabled()) ==> currentPage == old(currentPage)
      ensures !old(PreviousDisabled()) ==> currentPage == old(currentPage) - 1
    {
      if !PreviousDisabled() {
        currentPage := Max(1, currentPage - 1);
      }
    }

    /** A click on "Next"; a disabled button does nothing. */
    method ClickNext()
      modifies this`currentPage
      requires Valid()
      ensures Valid()
      ensures old(NextDisabled()) ==> currentPage == old(currentPage)
      ensures !old(NextDisabled()) ==> currentPage == old(currentPage) + 1
    {
      if !NextDisabled() {
        currentPage := currentPage + 1;
      }
    }

    /** The mount effect: the stored preference, `None` when nothing is stored. */
    method LoadPreference(stored: Option<string>)
      modifies this`showAvgResponseTime
      ensures showAvgResponseTime == ShowAverageFrom(stored)
    {
      showAvgResponseTime := stored != Some("false");
    }

    /** `toggleResponseTimeDisplay`: flip the preference; `stored` is what it writes under
        `ShowAverageKey`. */
    method ToggleResponseTimeDisplay() returns (stored: string)
      modifies this`showAvgResponseTime
      ensures showAvgResponseTime == !old(showAvgResponseTime)
      ensures stored == StoredFlag(showAvgResponseTime)
    {
      showAvgResponseTime := !showAvgResponseTime;
      stored := if showAvgResponseTime then "true" else "false";
    }
  }

  /** A fetch issued on page 2 that settles after "Previous" has moved the page to 1:
      the endpoint is replaced, but the current status stays, because the settling
      callback still sees page 2. */
  method PreviousDuringFetch(v: EndpointDetailView, data: EndpointStatus, now: int)
    modifies v
    requires v.Valid() && v.currentPage == 2
    ensures v.currentPage == 1 && v.endpoint == Some(data)
    ensures v.currentStatus == old(v.currentStatus)
  {
    var page := v.FetchStarted();
    v.ClickPrevious();
    v.FetchSettled(Some(data), page, now);
  }
}
