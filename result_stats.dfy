/**
 * The figures the endpoint card and the endpoint page derive from a list of results: the
 * measured durations (a duration of 0 means "not measured" and is skipped, as the
 * truthiness test `if (r.duration)` does), their average and range in milliseconds, and
 * the health status of the latest result.
 *
 * JavaScript computes these in floating point; here the durations are integer nanoseconds
 * and the quotients exact, so `Math.round(total / count / 1e6)` is `RoundDiv(total,
 * count * 1e6)` and `Math.trunc(min / 1e6)` is `min / 1e6` (durations are positive).
 */
module ResultStats {
  import opened Wrappers
  import opened Numeric
  import opened Strings
  import opened Types
  import opened Utils

  /** The non-zero durations, in order. */
  function Measured(rs: seq<EndpointResult>): (ds: seq<nat>)
    ensures |ds| <= |rs|
    ensures forall i :: 0 <= i < |ds| ==> ds[i] > 0
  {
    if rs == [] then []
    else
      var last := rs[|rs| - 1];
      Measured(rs[..|rs| - 1]) + (if last.duration > 0 then [last.duration] else [])
  }

  /** Measuring distributes over concatenation. */
  lemma {:induction false} MeasuredAppend(a: seq<EndpointResult>, b: seq<EndpointResult>)
    ensures Measured(a + b) == Measured(a) + Measured(b)
    decreases |b|
  {
    if b == [] {
      assert a + b == a;
    } else {
      var b' := b[..|b| - 1];
      assert (a + b)[..|a + b| - 1] == a + b';
      assert (a + b)[|a + b| - 1] == b[|b| - 1];
      MeasuredAppend(a, b');
    }
  }

  /** A result without a duration changes none of the figures, wherever it stands. */
  lemma MeasuredSkipsZero(a: seq<EndpointResult>, r: EndpointResult, b: seq<EndpointResult>)
    requires r.duration == 0
    ensures Measured(a + [r] + b) == Measured(a + b)
  {
    MeasuredAppend(a + [r], b);
    MeasuredAppend(a, [r]);
    MeasuredAppend(a, b);
    assert [r][..0] == [];
  }

  /** The measured durations are exactly the durations of results that have one. */
  lemma {:induction false} MeasuredMembers(rs: seq<EndpointResult>, d: nat)
    ensures d in Measured(rs) <==> d > 0 && exists i :: 0 <= i < |rs| && rs[i].duration == d
  {
    if rs != [] {
      var p := rs[..|rs| - 1];
      MeasuredMembers(p, d);
      if d > 0 && (exists i :: 0 <= i < |rs| && rs[i].duration == d) {
        var i :| 0 <= i < |rs| && rs[i].duration == d;
        if i < |rs| - 1 {
          assert p[i] == rs[i];
        }
      }
      if exists i :: 0 <= i < |p| && p[i].duration == d {
        var i :| 0 <= i < |p| && p[i].duration == d;
        assert rs[i] == p[i];
      }
    }
  }

  /** There is no measured duration exactly when no result has one. */
  lemma MeasuredEmpty(rs: seq<EndpointResult>)
    ensures Measured(rs) == [] <==> forall i :: 0 <= i < |rs| ==> rs[i].duration == 0
  {
    if Measured(rs) != [] {
      MeasuredMembers(rs, Measured(rs)[0]);
    } else {
      forall i | 0 <= i < |rs|
        ensures rs[i].duration == 0
      {
        MeasuredMembers(rs, rs[i].duration);
      }
    }
  }

  /** One more result, as an accumulating loop sees it. */
  lemma MeasuredStep(rs: seq<EndpointResult>, i: nat)
    requires i < |rs|
    ensures rs[i].duration > 0 ==> Measured(rs[..i + 1]) == Measured(rs[..i]) + [rs[i].duration]
    ensures rs[i].duration == 0 ==> Measured(rs[..i + 1]) == Measured(rs[..i])
  {
    assert rs[..i + 1][..i] == rs[..i];
    assert Measured(rs[..i]) + [] == Measured(rs[..i]);
  }

  /** The running figures after one more measured duration. */
  lemma AppendStats(ds: seq<nat>, d: nat)
    ensures Sum(ds + [d]) == Sum(ds) + d
    ensures ds == [] ==> Minimum(ds + [d]) == d && Maximum(ds + [d]) == d
    ensures ds != [] ==> Minimum(ds + [d]) == Min(Minimum(ds), d) && Maximum(ds + [d]) == Max(Maximum(ds), d)
  {
    assert (ds + [d])[..|ds|] == ds;
  }

  function Sum(ds: seq<nat>): nat
  {
    if ds == [] then 0 else Sum(ds[..|ds| - 1]) + ds[|ds| - 1]
  }

  function Minimum(ds: seq<nat>): nat
    requires ds != []
  {
    if |ds| == 1 then ds[0] else Min(Minimum(ds[..|ds| - 1]), ds[|ds| - 1])
  }

  function Maximum(ds: seq<nat>): nat
    requires ds != []
  {
    if |ds| == 1 then ds[0] else Max(Maximum(ds[..|ds| - 1]), ds[|ds| - 1])
  }

  /** `Minimum` and `Maximum` are the least and the greatest element. */
  lemma {:induction false} MinMaxBounds(ds: seq<nat>)
    requires ds != []
    ensures forall i :: 0 <= i < |ds| ==> Minimum(ds) <= ds[i] <= Maximum(ds)
    ensures Minimum(ds) in ds && Maximum(ds) in ds
  {
    if |ds| > 1 {
      var p := ds[..|ds| - 1];
      MinMaxBounds(p);
      forall i | 0 <= i < |ds| - 1
        ensures Minimum(ds) <= ds[i] <= Maximum(ds)
      {
        assert ds[i] == p[i];
      }
      assert Minimum(p) in ds && Maximum(p) in ds;
    }
  }

  /** The total lies between `count` times the least and `count` times the greatest. */
  lemma {:induction false} SumBounds(ds: seq<nat>)
    requires ds != []
    ensures |ds| * Minimum(ds) <= Sum(ds) <= |ds| * Maximum(ds)
  {
    if |ds| > 1 {
      var p := ds[..|ds| - 1];
      var last := ds[|ds| - 1];
      var n, lo, hi := |p|, Minimum(ds), Maximum(ds);
      SumBounds(p);
      assert Sum(ds) == Sum(p) + last;
      assert lo <= Minimum(p) && lo <= last && Maximum(p) <= hi && last <= hi;
      MulMonotone(n, lo, Minimum(p));
      MulMonotone(n, Maximum(p), hi);
      MulSucc(n, lo);
      MulSucc(n, hi);
    }
  }

  /** The average in whole milliseconds, rounded half up. */
  function AverageMs(ds: seq<nat>): int
    requires ds != []
  {
    RoundDiv(Sum(ds), |ds| * NsPerMs)
  }

  /** Both ends of the range in whole milliseconds, truncated. */
  function LowMs(ds: seq<nat>): nat
    requires ds != []
  {
    Minimum(ds) / NsPerMs
  }

  function HighMs(ds: seq<nat>): nat
    requires ds != []
  {
    Maximum(ds) / NsPerMs
  }

  lemma RangeOrdered(ds: seq<nat>)
    requires ds != []
    ensures LowMs(ds) <= HighMs(ds)
  {
    MinMaxBounds(ds);
    DivMonotone(Minimum(ds), Maximum(ds), NsPerMs);
  }

  /** The average never falls below the truncated least duration, nor above the greatest
      duration rounded. */
  lemma AverageWithinRange(ds: seq<nat>)
    requires ds != []
    ensures LowMs(ds) <= AverageMs(ds) <= RoundDiv(Maximum(ds), NsPerMs)
  {
    var c := |ds|;
    SumBounds(ds);
    RoundDivMonotone(c * Minimum(ds), Sum(ds), c * NsPerMs);
    RoundDivMonotone(Sum(ds), c * Maximum(ds), c * NsPerMs);
    RoundDivAtLeastFloor(c * Minimum(ds), c * NsPerMs);
    DivCancel(Minimum(ds), NsPerMs, c);
    RoundDivCancel(Maximum(ds), NsPerMs, c);
  }

  /** The range text: one figure when both ends truncate to the same millisecond, else
      "low-high"; either way followed by "ms". */
  function RangeText(ds: seq<nat>): string
    requires ds != []
  {
    RangeOf(LowMs(ds), HighMs(ds))
  }

  function RangeOf(lo: int, hi: int): string
  {
    if lo == hi then IntToString(lo) + "ms" else IntToString(lo) + "-" + IntToString(hi) + "ms"
  }

  /** A figure with the unit "ms" is never 'N/A'. */
  lemma EndsInMs(n: string)
    ensures n + "ms" != "N/A"
  {
    var s := n + "ms";
    assert s[|s| - 1] == 's';
  }

  lemma RangeEndsInMs(lo: int, hi: int)
    ensures RangeOf(lo, hi) != "N/A"
  {
    if lo == hi {
      EndsInMs(IntToString(lo));
    } else {
      EndsInMs(IntToString(lo) + "-" + IntToString(hi));
    }
  }

  /** The range text starts with the low end; it shows a second figure, introduced by '-',
      exactly when the ends differ. */
  lemma RangeTextReadsBack(ds: seq<nat>)
    requires ds != []
    ensures ParseInt(RangeText(ds)) == Some(LowMs(ds))
    ensures LowMs(ds) == HighMs(ds) ==> RangeText(ds) == IntToString(LowMs(ds)) + "ms"
    ensures LowMs(ds) != HighMs(ds) ==>
      RangeText(ds) == IntToString(LowMs(ds)) + ("-" + IntToString(HighMs(ds)) + "ms")
  {
    RangeOfReadsBack(LowMs(ds), HighMs(ds));
  }

  lemma RangeOfReadsBack(lo: int, hi: int)
    ensures ParseInt(RangeOf(lo, hi)) == Some(lo)
    ensures lo == hi ==> RangeOf(lo, hi) == IntToString(lo) + "ms"
    ensures lo != hi ==> RangeOf(lo, hi) == IntToString(lo) + ("-" + IntToString(hi) + "ms")
  {
    if lo == hi {
      ParseIntOfNumeral(lo, "ms");
    } else {
      var rest := "-" + IntToString(hi) + "ms";
      assert IntToString(lo) + "-" + IntToString(hi) + "ms" == IntToString(lo) + rest;
      ParseIntOfNumeral(lo, rest);
    }
  }

  /** `status` of a card or page: the latest result's success, or 'unknown' without one. */
  function StatusOf(latestSuccess: Option<bool>): string
  {
    match latestSuccess
    case None => "unknown"
    case Some(ok) => if ok then "healthy" else "unhealthy"
  }

  /** The success flag of an endpoint result and of a suite result, as function values
      for the definitions below that serve both kinds of result. */
  function EndpointSuccess(r: EndpointResult): bool { r.success }

  function SuiteSuccess(r: SuiteResult): bool { r.success }

  /** The success flag of the last result of a list, endpoint or suite. */
  function LatestSuccess<R>(rs: seq<R>, success: R -> bool): (o: Option<bool>)
    ensures o.None? <==> rs == []
    ensures o.Some? ==> o.value == success(rs[|rs| - 1])
  {
    if rs == [] then None else Some(success(rs[|rs| - 1]))
  }

  /** The three statuses and when each is shown. */
  lemma StatusCases(rs: seq<EndpointResult>)
    ensures StatusOf(LatestSuccess(rs, EndpointSuccess)) == "unknown" <==> rs == []
    ensures StatusOf(LatestSuccess(rs, EndpointSuccess)) == "healthy" <==> rs != [] && rs[|rs| - 1].success
    ensures StatusOf(LatestSuccess(rs, EndpointSuccess)) == "unhealthy" <==> rs != [] && !rs[|rs| - 1].success
  {
  }

  /** The storage key of the average/range preference the dashboard and the endpoint
      page share. */
  const ShowAverageKey: string := "gatus:show-average-response-time"

  /** What a toggle of the preference stores. */
  function StoredFlag(showAverage: bool): (s: string)
    ensures s == "true" <==> showAverage
    ensures s == "false" <==> !showAverage
  {
    if showAverage then "true" else "false"
  }

  /** The mount effect's reading of the stored preference: the average is shown unless
      the stored value is exactly 'false', so a missing value shows it too. */
  function ShowAverageFrom(stored: Option<string>): (showAverage: bool)
    ensures !showAverage <==> stored == Some("false")
  {
    stored != Some("false")
  }

  /** What a toggle stores reads back, on the next mount, as the setting it stored. */
  lemma StoredFlagReadsBack(showAverage: bool)
    ensures ShowAverageFrom(Some(StoredFlag(showAverage))) == showAverage
  {
  }

  /** The "Last Check" figure: the age of the latest result, or 'Never'. */
  function LastCheck(rs: seq<EndpointResult>, now: int): string
  {
    if rs == [] then "Never" else TimeAgo(now - rs[|rs| - 1].timestamp)
  }
}
