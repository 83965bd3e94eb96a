/**
 * One suite's card on the dashboard. A suite result carries only a success flag, a
 * duration and a timestamp, so the card adapts each one into an endpoint result before
 * handing the list to the health strip; the badge shows the latest result's success.
 * The suite page adapts its results the same way and uses `Adapted` from here.
 */
module SuiteCard {
  import opened Wrappers
  import opened Types
  import opened ResultStats
  import opened HealthBar

  /** The default of the card's `maxResults` prop. */
  const DefaultMaxResults: int := 50

  /** One suite result as the health strip sees it: status 0, no host name, no
      conditions and no errors; the rest copied. */
  function Adapt(r: SuiteResult): EndpointResult
  {
    EndpointResult(0, "", r.duration, r.success, r.timestamp, None, None)
  }

  /** `results.map(...)`: every suite result adapted, in order. */
  function Adapted(rs: seq<SuiteResult>): (es: seq<EndpointResult>)
    ensures |es| == |rs|
  {
    seq(|rs|, i requires 0 <= i < |rs| => Adapt(rs[i]))
  }

  /** The adapted list is index-aligned with the suite's results: each entry keeps the
      duration, the success and the time of its suite result and carries nothing else. */
  lemma AdaptedAligned(rs: seq<SuiteResult>)
    ensures |Adapted(rs)| == |rs|
    ensures forall i :: 0 <= i < |rs| ==>
      var e := Adapted(rs)[i];
      && e.duration == rs[i].duration && e.success == rs[i].success && e.timestamp == rs[i].timestamp
      && e.status == 0 && e.hostname == "" && e.conditionResults.None? && e.errors.None?
  {
  }

  /** Adapting commutes with concatenation, so the strip's window over the adapted list
      is the adapted window over the suite's results. */
  lemma AdaptedAppend(a: seq<SuiteResult>, b: seq<SuiteResult>)
    ensures Adapted(a + b) == Adapted(a) + Adapted(b)
  {
    assert forall i :: 0 <= i < |a| + |b| ==> Adapted(a + b)[i] == (Adapted(a) + Adapted(b))[i];
  }

  /** The badge of the card: 'healthy', 'unhealthy' or 'unknown'. */
  function CardStatus(s: SuiteStatus): string
  {
    StatusOf(LatestSuccess(s.results, SuiteSuccess))
  }

  /** Adapting keeps the latest success, so the badge reads the same from either list. */
  lemma StatusThroughAdapted(s: SuiteStatus)
    ensures CardStatus(s) == StatusOf(LatestSuccess(Adapted(s.results), EndpointSuccess))
  {
  }

  /** The badge agrees with the newest segment of the card's strip: with results, the
      last segment is green exactly when the badge says 'healthy' and red exactly when it
      says 'unhealthy'; without results the badge says 'unknown'. */
  lemma BadgeMatchesNewestSegment(s: SuiteStatus)
    ensures s.results == [] <==> CardStatus(s) == "unknown"
    ensures s.results != [] ==>
      var w := Window(Adapted(s.results), DefaultMaxResults);
      && (SegmentColour(w[|w| - 1], |w| - 1, None) == Green <==> CardStatus(s) == "healthy")
      && (SegmentColour(w[|w| - 1], |w| - 1, None) == Red <==> CardStatus(s) == "unhealthy")
  {
    if s.results != [] {
      var es := Adapted(s.results);
      WindowShape(es, DefaultMaxResults);
      WindowEndsWithNewest(es, DefaultMaxResults);
    }
  }
}
