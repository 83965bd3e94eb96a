/**
 * The response-time trend chart: the plot rectangle inside a 300px-high canvas, the
 * y-scale, the six gridlines and their labels, the x-label sample choice, the line's points,
 * the cursor-to-sample inversion, the inline hover box, and the state behind the view
 * (loading, error, data, hovered sample).
 *
 * Drawing calls are not modelled; each drawing loop returns what it would draw. The
 * container width `w` and text widths are inputs. Arithmetic is exact: JavaScript doubles
 * are not modelled.
 */
module Chart {
  import opened Wrappers
  import opened Numeric
  import opened Strings
  import opened Types

  const Height: real := 300.0
  const PadLeft: real := 60.0
  const PadRight: real := 20.0
  const PadTop: real := 20.0
  const PadBottom: real := 40.0
  const GridCount: nat := 5

  function PlotW(w: real): real { w - PadLeft - PadRight }

  function PlotH(): real { Height - PadTop - PadBottom }

  /** The plot area is the canvas less the margins: 80px narrower, 240px high. */
  lemma PlotRectangle(w: real)
    ensures PlotW(w) == w - 80.0 && PlotH() == 240.0
    ensures PadTop + PlotH() == 260.0
  {
  }

  /** `Math.max(...values, 1)`. */
  function MaxVal(values: seq<real>): (m: real)
    ensures m >= 1.0
    ensures forall i :: 0 <= i < |values| ==> values[i] <= m
    ensures m == 1.0 || exists i :: 0 <= i < |values| && values[i] == m
  {
    if values == [] then 1.0
    else
      var rest := MaxVal(values[1..]);
      assert forall i :: 1 <= i < |values| ==> values[i] == values[1..][i - 1];
      if values[0] > rest then values[0] else rest
  }

  /** The canvas y of value `v`: the plot's bottom for 0, its top for `maxVal`. */
  function YOf(v: real, maxVal: real): real
    requires maxVal > 0.0
  {
    PadTop + PlotH() - (v / maxVal) * PlotH()
  }

  /** Every value between 0 and the maximum lands inside the plot, larger values higher. */
  lemma YScale(v: real, v': real, maxVal: real)
    requires maxVal >= 1.0
    ensures YOf(maxVal, maxVal) == 20.0 && YOf(0.0, maxVal) == 260.0
    ensures 0.0 <= v <= maxVal ==> 20.0 <= YOf(v, maxVal) <= 260.0
    ensures v <= v' ==> YOf(v', maxVal) <= YOf(v, maxVal)
  {
    if 0.0 <= v <= maxVal {
      assert 0.0 <= v / maxVal <= 1.0;
    }
    if v <= v' {
      assert v / maxVal <= v' / maxVal;
    }
  }

  /** Every series value, measured against the series' own maximum, lands inside the plot. */
  lemma SeriesInsidePlot(values: seq<real>, i: nat)
    requires i < |values| && values[i] >= 0.0
    ensures 20.0 <= YOf(values[i], MaxVal(values)) <= 260.0
  {
    YScale(values[i], values[i], MaxVal(values));
  }

  // ---------------------------------------------------------------------------------
  // Gridlines

  datatype GridLine = GridLine(y: real, text: string)

  /** The value at the height of gridline `i`: the maximum down to zero in five steps. */
  function GridValue(maxVal: real, i: nat): real
  {
    maxVal * (1.0 - (i as real) / (GridCount as real))
  }

  /** A value rounded to whole milliseconds, with "ms". */
  function MsLabel(v: real): string
  {
    IntToString(RoundReal(v)) + "ms"
  }

  /** The label of gridline `i`: the value at that height, rounded, with "ms". */
  function GridLabel(maxVal: real, i: nat): string
  {
    MsLabel(GridValue(maxVal, i))
  }

  /** The gridline loop: for i = 0..5 a line across the plot at `20 + (240 / 5) * i`. */
  method DrawGrid(maxVal: real) returns (lines: seq<GridLine>)
    ensures |lines| == GridCount + 1
    ensures forall i :: 0 <= i < |lines| ==>
      lines[i] == GridLine(20.0 + 48.0 * (i as real), GridLabel(maxVal, i))
  {
    lines := [];
    var step := PlotH() / (GridCount as real);
    assert step == 48.0;
    for i := 0 to GridCount + 1
      invariant |lines| == i
      invariant forall j :: 0 <= j < i ==> lines[j] == GridLine(20.0 + 48.0 * (j as real), GridLabel(maxVal, j))
    {
      var y := PadTop + step * (i as real);
      lines := lines + [GridLine(y, GridLabel(maxVal, i))];
    }
  }

  /** The top gridline is labelled with the rounded maximum, the bottom one "0ms", and the
      lines span the plot from its top (y = 20) to its bottom (y = 260). */
  lemma GridEnds(maxVal: real)
    ensures GridLabel(maxVal, 0) == IntToString(RoundReal(maxVal)) + "ms"
    ensures GridLabel(maxVal, GridCount) == "0ms"
    ensures 20.0 + 48.0 * (GridCount as real) == PadTop + PlotH()
  {
    assert GridValue(maxVal, 0) == maxVal;
    assert GridValue(maxVal, GridCount) == 0.0;
    ZeroMsLabel();
  }

  lemma ZeroMsLabel()
    ensures MsLabel(0.0) == "0ms"
  {
    assert RoundReal(0.0) == 0;
    assert IntToString(0) == "0";
  }

  // ---------------------------------------------------------------------------------
  // X-axis geometry. The x of sample i divides by n - 1, so it needs n >= 2 samples.

  /** The canvas x of sample `i` of `n`. */
  function XOf(i: nat, n: nat, w: real): real
    requires n >= 2
  {
    PadLeft + ((i as real) / ((n - 1) as real)) * PlotW(w)
  }

  /** The first sample sits at the plot's left edge and the last at its right edge. */
  lemma XEnds(n: nat, w: real)
    requires n >= 2
    ensures XOf(0, n, w) == PadLeft
    ensures XOf(n - 1, n, w) == PadLeft + PlotW(w)
  {
  }

  /** The number of x labels: at most six. */
  function LabelCount(n: nat): nat { Min(6, n) }

  /** The sample under label `i`: `Math.round(i / (labelCount - 1) * (n - 1))`. */
  function LabelIndex(i: nat, n: nat): int
    requires n >= 2
  {
    RoundDiv(i * (n - 1), LabelCount(n) - 1)
  }

  /** The labelled samples run from the first to the last, each after the one before. */
  lemma {:induction false} LabelIndices(i: nat, n: nat)
    requires n >= 2 && i < LabelCount(n)
    ensures 0 <= LabelIndex(i, n) <= n - 1
    ensures LabelIndex(0, n) == 0
    ensures LabelIndex(LabelCount(n) - 1, n) == n - 1
    ensures i + 1 < LabelCount(n) ==> LabelIndex(i, n) < LabelIndex(i + 1, n)
  {
    LabelIndexRange(i, n);
    LabelIndexEnds(n);
    if i + 1 < LabelCount(n) {
      LabelIndexStep(i, n);
    }
  }

  lemma LabelIndexRange(i: nat, n: nat)
    requires n >= 2 && i < LabelCount(n)
    ensures 0 <= LabelIndex(i, n) <= n - 1
  {
    ScaledRange(i, n - 1, LabelCount(n) - 1);
  }

  lemma LabelIndexEnds(n: nat)
    requires n >= 2
    ensures LabelIndex(0, n) == 0
    ensures LabelIndex(LabelCount(n) - 1, n) == n - 1
  {
    var k, b := n - 1, LabelCount(n) - 1;
    ScaledRange(0, k, b);
    ScaledRange(b, k, b);
    assert LabelIndex(0, n) == RoundDiv(0 * k, b);
    assert LabelIndex(b, n) == RoundDiv(b * k, b);
  }

  /** Consecutive labels are at least one sample apart, since there are no more labels
      than samples. */
  lemma LabelIndexStep(i: nat, n: nat)
    requires n >= 2 && i + 1 < LabelCount(n)
    ensures LabelIndex(i, n) < LabelIndex(i + 1, n)
  {
    ScaledStep(i, n - 1, LabelCount(n) - 1);
  }

  /** `round(i * k / b)` for `0 <= i <= b`: from 0 to `k`, exact at both ends. */
  lemma ScaledRange(i: int, k: int, b: int)
    requires 0 <= i <= b && b > 0 && k >= 0
    ensures 0 <= RoundDiv(i * k, b) <= k
    ensures i == 0 ==> RoundDiv(i * k, b) == 0
    ensures i == b ==> RoundDiv(i * k, b) == k
  {
    RoundDivExact(0, b);
    RoundDivExact(k, b);
    MulMonotone(k, i, b);
    assert i * k <= k * b;
    RoundDivMonotone(0 * b, i * k, b);
    RoundDivMonotone(i * k, k * b, b);
    assert i == b ==> i * k == k * b;
  }

  /** With steps `k` no smaller than the divisor `b`, each step moves the rounded quotient on. */
  lemma ScaledStep(i: int, k: int, b: int)
    requires 0 <= i && 0 < b <= k
    ensures RoundDiv(i * k, b) < RoundDiv((i + 1) * k, b)
  {
    MulSucc(i, k);
    RoundDivShift(i * k, b);
    RoundDivMonotone(i * k + b, (i + 1) * k, b);
  }

  datatype XLabel = XLabel(index: int, x: real)

  /** The x-label loop: the chosen sample and where its label is centred. */
  method DrawXLabels(n: nat, w: real) returns (labels: seq<XLabel>)
    requires n >= 2
    ensures |labels| == LabelCount(n)
    ensures forall i :: 0 <= i < |labels| ==>
      labels[i].index == LabelIndex(i, n) && 0 <= labels[i].index < n
      && labels[i].x == XOf(labels[i].index as nat, n, w)
  {
    labels := [];
    var labelCount := Min(6, n);
    for i := 0 to labelCount
      invariant |labels| == i
      invariant forall j :: 0 <= j < i ==>
        labels[j].index == LabelIndex(j, n) && 0 <= labels[j].index < n
        && labels[j].x == XOf(labels[j].index as nat, n, w)
    {
      var idx := LabelIndex(i, n);
      LabelIndices(i, n);
      var x := XOf(idx as nat, n, w);
      labels := labels + [XLabel(idx, x)];
    }
  }

  datatype Point = Point(x: real, y: real)

  /** The line loop: one point per sample, left to right. */
  method BuildPath(values: seq<real>, w: real) returns (points: seq<Point>)
    requires |values| >= 2
    ensures |points| == |values|
    ensures forall i :: 0 <= i < |points| ==>
      points[i] == Point(XOf(i, |values|, w), YOf(values[i], MaxVal(values)))
  {
    var maxVal := MaxVal(values);
    points := [];
    for i := 0 to |values|
      invariant |points| == i
      invariant forall j :: 0 <= j < i ==> points[j] == Point(XOf(j, |values|, w), YOf(values[j], maxVal))
    {
      var x := PadLeft + ((i as real) / ((|values| - 1) as real)) * PlotW(w);
      var y := PadTop + PlotH() - (values[i] / maxVal) * PlotH();
      points := points + [Point(x, y)];
    }
  }

  /** The filled area: the line, then down to the baseline under the plot's right edge and
      back along the baseline to its left edge. */
  function FillOutline(points: seq<Point>, w: real): seq<Point>
  {
    points + [Point(PadLeft + PlotW(w), PadTop + PlotH()), Point(PadLeft, PadTop + PlotH())]
  }

  /** The fill closes straight down from the last point and straight up to the first one. */
  lemma FillIsClosedUnderLine(values: seq<real>, w: real, points: seq<Point>)
    requires |values| >= 2 && |points| == |values|
    requires forall i :: 0 <= i < |points| ==>
      points[i] == Point(XOf(i, |values|, w), YOf(values[i], MaxVal(values)))
    ensures var f := FillOutline(points, w);
      && |f| == |points| + 2
      && f[|points|].x == points[|points| - 1].x
      && f[|points| + 1].x == points[0].x
      && f[|points|].y == f[|points| + 1].y == 260.0
  {
    XEnds(|values|, w);
  }

  // ---------------------------------------------------------------------------------
  // Hover

  /**
   * `handleMouseMove` at cursor offset `x` on a canvas of width `w` over `n > 0` samples:
   * the nearest sample to the cursor, or none when that index falls outside the series.
   * A zero-width plot divides by zero; the resulting NaN or infinity is never in range.
   */
  function HoverIndexAt(x: real, w: real, n: nat): (h: Option<int>)
    ensures h.Some? ==> 0 <= h.value < n
  {
    if PlotW(w) == 0.0 then None
    else
      var idx := RoundReal((x - PadLeft) / PlotW(w) * ((n - 1) as real));
      if 0 <= idx < n then Some(idx) else None
  }

  /** Pointing exactly at a sample's x selects that sample: hovering inverts `XOf`. */
  lemma HoverInvertsX(k: nat, n: nat, w: real)
    requires n >= 2 && k < n && PlotW(w) != 0.0
    ensures HoverIndexAt(XOf(k, n, w), w, n) == Some(k)
  {
    var p := PlotW(w);
    var d := (n - 1) as real;
    var q := (k as real) / d;
    assert XOf(k, n, w) - PadLeft == q * p;
    assert (q * p) / p == q;
    assert q * d == k as real;
    assert (XOf(k, n, w) - PadLeft) / p * d == k as real;
    assert RoundReal(k as real) == k;
    assert RoundReal((XOf(k, n, w) - PadLeft) / PlotW(w) * ((n - 1) as real)) == k;
  }

  /** The worked case: a 380px canvas (300px plot), three samples, cursor at 210px. */
  lemma HoverExample()
    ensures HoverIndexAt(210.0, 380.0, 3) == Some(1)
  {
    assert (210.0 - PadLeft) / PlotW(380.0) * 2.0 == 1.0;
    assert RoundReal(1.0) == 1;
  }

  datatype HoverBox = HoverBox(x: real, y: real, width: real, height: real)

  /**
   * The inline box at the hovered point (hx, hy), `textW` wide plus 16px padding and 36px
   * high: right of the point unless that overflows the plot's right margin, above it unless
   * that leaves the plot's top.
   */
  function HoverBoxAt(hx: real, hy: real, textW: real, w: real): HoverBox
  {
    var boxW := textW + 16.0;
    var boxH := 36.0;
    var boxX := if hx + 10.0 + boxW > w - PadRight then hx - boxW - 10.0 else hx + 10.0;
    var boxY := if hy - boxH - 10.0 < PadTop then hy + 10.0 else hy - boxH - 10.0;
    HoverBox(boxX, boxY, boxW, boxH)
  }

  /** The box always keeps 10px from the point on both axes, and sits right of and above
      the point exactly when it fits there. */
  lemma HoverBoxPlacement(hx: real, hy: real, textW: real, w: real)
    requires textW >= 0.0
    ensures var b := HoverBoxAt(hx, hy, textW, w);
      && b.width == textW + 16.0 && b.height == 36.0
      && (b.x == hx + 10.0 <==> hx + 10.0 + b.width <= w - PadRight)
      && (b.x != hx + 10.0 ==> b.x + b.width == hx - 10.0)
      && (b.y + b.height == hy - 10.0 <==> hy - 46.0 >= PadTop)
      && (b.y + b.height != hy - 10.0 ==> b.y == hy + 10.0)
  {
  }

  /** The hovered point, when the index is one of the series'. */
  function HoverPoint(hoverIndex: Option<int>, values: seq<real>, w: real): (p: Option<Point>)
    requires |values| >= 2
    ensures p.Some? <==> hoverIndex.Some? && 0 <= hoverIndex.value < |values|
  {
    if hoverIndex.Some? && 0 <= hoverIndex.value < |values| then
      var i := hoverIndex.value;
      Some(Point(XOf(i, |values|, w), YOf(values[i], MaxVal(values))))
    else None
  }

  // ---------------------------------------------------------------------------------
  // State and view

  const LoadError := "Failed to load chart data"

  datatype View = LoadingView | ErrorView(message: string) | NoDataView | CanvasView

  class ResponseTimeChart {
    var loading: bool
    var error: Option<string>
    var timestamps: seq<int>
    var values: seq<real>
    var hoverIndex: Option<int>

    constructor()
      ensures loading && error == None && timestamps == [] && values == [] && hoverIndex == None
    {
      loading, error, timestamps, values, hoverIndex := true, None, [], [], None;
    }

    /** What the component renders: the spinner while loading, then the error text, then
        "No data available" for an empty series, else the canvas. */
    function ViewOf(): (v: View)
      reads this
      ensures v == LoadingView <==> loading
      ensures v.ErrorView? <==> !loading && error.Some?
      ensures v.ErrorView? ==> v.message == error.value
      ensures v == NoDataView <==> !loading && error.None? && |values| == 0
      ensures v == CanvasView <==> !loading && error.None? && |values| > 0
    {
      if loading then LoadingView
      else if error.Some? then ErrorView(error.value)
      else if |values| == 0 then NoDataView
      else CanvasView
    }

    /** The start of `fetchData`. */
    method BeginFetch()
      modifies this
      ensures loading && error == None
      ensures timestamps == old(timestamps) && values == old(values) && hoverIndex == old(hoverIndex)
    {
      loading := true;
      error := None;
    }

    /** `fetchData` after a successful request. */
    method FetchSucceeded(data: ResponseTimeHistory)
      modifies this
      ensures !loading && error == old(error)
      ensures timestamps == data.timestamps && values == data.values && hoverIndex == old(hoverIndex)
    {
      timestamps := data.timestamps;
      values := data.values;
      loading := false;
    }

    /** `fetchData` after a failed request: the old series stays, the error is shown. */
    method FetchFailed()
      modifies this
      ensures !loading && error == Some(LoadError)
      ensures timestamps == old(timestamps) && values == old(values) && hoverIndex == old(hoverIndex)
    {
      error := Some(LoadError);
      loading := false;
    }

    /** `handleMouseMove`: ignored over an empty series. */
    method MouseMove(x: real, w: real)
      modifies this
      ensures |values| == 0 ==> hoverIndex == old(hoverIndex)
      ensures |values| > 0 ==> hoverIndex == HoverIndexAt(x, w, |values|)
      ensures loading == old(loading) && error == old(error)
      ensures timestamps == old(timestamps) && values == old(values)
    {
      if |values| == 0 {
        return;
      }
      var plotW := PlotW(w);
      if plotW == 0.0 {
        hoverIndex := None;
        return;
      }
      var ratio := (x - PadLeft) / plotW;
      var idx := RoundReal(ratio * ((|values| - 1) as real));
      assert idx == RoundReal((x - PadLeft) / PlotW(w) * ((|values| - 1) as real));
      if idx >= 0 && idx < |values| {
        assert HoverIndexAt(x, w, |values|) == Some(idx);
        hoverIndex := Some(idx);
      } else {
        hoverIndex := None;
      }
    }

    /** Leaving the canvas clears the hover. */
    method MouseLeave()
      modifies this
      ensures hoverIndex == None
      ensures loading == old(loading) && error == old(error)
      ensures timestamps == old(timestamps) && values == old(values)
    {
      hoverIndex := None;
    }
  }
}
