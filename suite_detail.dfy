/**
 * The page of one suite: the status of the latest result, the "Current Status" and "Last
 * Check" figures, the health strip over the adapted results, and the paging of results.
 * The page's tooltip is `TooltipHost.Host`, the same machine as the dashboard's.
 */
module SuiteDetail {
  import opened Wrappers
  import opened Numeric
  import opened Types
  import opened Utils
  import opened ResultStats
  import opened SuiteCard

  /** `PAGE_SIZE`: results fetched per page, and the strip's `maxResults`. */
  const PageSize: nat := 50

  /** The results of the fetched suite; none before the first fetch. */
  function ResultsOf(suite: Option<SuiteStatus>): seq<SuiteResult>
  {
    if suite.None? then [] else suite.value.results
  }

  /** `healthStatus`, from the latest result of the fetched suite. */
  function HealthStatus(suite: Option<SuiteStatus>): string
  {
    StatusOf(LatestSuccess(ResultsOf(suite), SuiteSuccess))
  }

  /** "Current Status": 'All Passing' exactly when the latest result succeeded. */
  function CurrentStatusText(suite: Option<SuiteStatus>): (s: string)
    ensures s == "All Passing" <==> ResultsOf(suite) != [] && ResultsOf(suite)[|ResultsOf(suite)| - 1].success
    ensures s != "All Passing" ==> s == "Failures Detected"
  {
    if HealthStatus(suite) == "healthy" then "All Passing" else "Failures Detected"
  }

  /** Without any result the status is 'unknown' and the page still says 'Failures Detected'. */
  lemma NoResultsReadAsFailures(suite: Option<SuiteStatus>)
    requires ResultsOf(suite) == []
    ensures HealthStatus(suite) == "unknown"
    ensures CurrentStatusText(suite) == "Failures Detected"
  {
  }

  /** "Last Check": the age of the latest result, or 'Never' without one. */
  function LastCheckText(suite: Option<SuiteStatus>, now: int): (s: string)
    ensures ResultsOf(suite) == [] ==> s == "Never"
    ensures ResultsOf(suite) != [] ==>
      s == TimeAgo(now - ResultsOf(suite)[|ResultsOf(suite)| - 1].timestamp)
  {
    var rs := ResultsOf(suite);
    if rs == [] then "Never" else TimeAgo(now - rs[|rs| - 1].timestamp)
  }

  /** The strip is drawn only when there is an adapted result, that is, when the suite
      has any result. */
  predicate ShowsHealthBar(suite: Option<SuiteStatus>)
  {
    |Adapted(ResultsOf(suite))| > 0
  }

  lemma ShowsHealthBarIff(suite: Option<SuiteStatus>)
    ensures ShowsHealthBar(suite) <==> ResultsOf(suite) != []
  {
  }

  /** The state of one suite page. */
  class SuiteDetailView {
    var suite: Option<SuiteStatus>
    var currentPage: int
    var isRefreshing: bool

    /** The page number never drops below 1. */
    predicate Valid()
      reads this
    {
      currentPage >= 1
    }

    constructor()
      ensures Valid() && currentPage == 1 && suite.None? && !isRefreshing
    {
      suite, currentPage, isRefreshing := None, 1, false;
    }

    /** The spinner shows until a suite with a name has arrived. */
    predicate ShowsLoading()
      reads this
    {
      suite.None? || suite.value.name == ""
    }

    /** `fetchData` starting: the refresh button spins and is disabled. */
    method FetchStarted()
      modifies this`isRefreshing
      ensures isRefreshing
    {
      isRefreshing := true;
    }

    /** `fetchData` settling: `data` is the fetched suite, or `None` when the fetch failed,
        which keeps the suite shown so far. */
    method FetchSettled(data: Option<SuiteStatus>)
      modifies this`suite, this`isRefreshing
      ensures !isRefreshing
      ensures data.Some? ==> suite == data
      ensures data.None? ==> suite == old(suite)
    {
      if data.Some? {
        suite := data;
      }
      isRefreshing := false;
    }

    /** "Previous" is disabled on page 1; "Next" when the page has fewer than `PAGE_SIZE`
        results, the empty page included. */
    predicate PreviousDisabled()
      reads this
    {
      currentPage <= 1
    }

    predicate NextDisabled()
      reads this
    {
      |ResultsOf(suite)| < PageSize
    }

    /** A click on "Previous"; a disabled button does nothing. */
    method ClickPrevious()
      modifies this`currentPage
      requires Valid()
      ensures Valid()
      ensures old(PreviousDisabled()) ==> currentPage == old(currentPage)
      ensures !old(PreviousDisabled()) ==> currentPage == old(currentPage) - 1
    {
      if !PreviousDisabled() {
        currentPage := Max(1, currentPage - 1);
      }
    }

    /** A click on "Next"; a disabled button does nothing. */
    method ClickNext()
      modifies this`currentPage
      requires Valid()
      ensures Valid()
      ensures old(NextDisabled()) ==> currentPage == old(currentPage)
      ensures !old(NextDisabled()) ==> currentPage == old(currentPage) + 1
    {
      if !NextDisabled() {
        currentPage := currentPage + 1;
      }
    }
  }
}
