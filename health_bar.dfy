/**
 * The health strip (`HealthBar`): a right-aligned, null-padded window over the newest
 * results, one coloured segment per slot, a per-strip selected segment toggled by clicks,
 * and the "oldest" and "newest" age labels under the strip.
 *
 * The mouse handlers do not draw the tooltip themselves; they call the page's
 * `onTooltip` callback, and a click also broadcasts 'clear-data-point-selection'. Both are
 * returned as `Effect`s. No strip listens to that broadcast, so a strip's selection is
 * changed by clicks on that strip only.
 */
module HealthBar {
  import opened Wrappers
  import opened Types
  import opened Utils
  import opened Numeric

  /** One segment of the strip: a result, or `null` padding. */
  type Slot = Option<EndpointResult>

  function Lift(rs: seq<EndpointResult>): (s: seq<Slot>)
    ensures |s| == |rs|
    ensures forall i :: 0 <= i < |rs| ==> s[i] == Some(rs[i])
  {
    seq(|rs|, i requires 0 <= i < |rs| => Some(rs[i]))
  }

  /** `Array.prototype.slice(start)`: a negative start counts from the end and is clamped
      at the front; a start past the end gives the empty array. */
  function SliceFrom<T>(s: seq<T>, start: int): (r: seq<T>)
    ensures |r| <= |s|
    ensures r == s[|s| - |r|..]
    ensures 0 <= start <= |s| ==> |r| == |s| - start
    ensures -|s| <= start < 0 ==> |r| == -start
    ensures start < -|s| ==> r == s
  {
    if start >= 0 then (if start <= |s| then s[start..] else [])
    else if -start <= |s| then s[|s| + start..]
    else s
  }

  /**
   * The strip the display shows, stated slot by slot: for a positive `maxResults` there are
   * `maxResults` slots, the last `|results|` of which (or all, when there are more results)
   * hold the results in order, the rest `null`; for `maxResults <= 0` the results after the
   * first `-maxResults`, which for `maxResults == 0` is all of them.
   */
  function Window(results: seq<EndpointResult>, maxResults: int): seq<Slot>
  {
    if maxResults > 0 then
      var pad := maxResults - |results|;
      seq(maxResults, i requires 0 <= i < maxResults =>
        if i < pad then None else Some(results[i - pad]))
    else
      Lift(results[Min(-maxResults, |results|)..])
  }

  /** The `display` memo: copy the results, unshift `null` until there are `maxResults`
      slots, then keep the last `maxResults` with `slice(-maxResults)`. */
  method BuildDisplay(results: seq<EndpointResult>, maxResults: int) returns (display: seq<Slot>)
    ensures display == Window(results, maxResults)
  {
    var arr := Lift(results);
    ghost var pad := 0;
    assert arr == Nulls(0) + Lift(results);
    while |arr| < maxResults
      invariant arr == Nulls(pad) + Lift(results)
      invariant pad == 0 || |arr| <= maxResults
      decreases maxResults - |arr|
    {
      UnshiftNull(pad, results);
      arr := [None] + arr;
      pad := pad + 1;
    }
    display := SliceFrom(arr, -maxResults);
    PaddedWindow(results, maxResults, pad, arr);
  }

  /** `n` slots of `null` padding. */
  function Nulls(n: nat): (s: seq<Slot>)
    ensures |s| == n && forall i :: 0 <= i < n ==> s[i] == None
  {
    seq(n, i => None)
  }

  lemma UnshiftNull(n: nat, results: seq<EndpointResult>)
    ensures [None] + (Nulls(n) + Lift(results)) == Nulls(n + 1) + Lift(results)
  {
    assert [None] + Nulls(n) == Nulls(n + 1);
  }

  /** What the unshift loop leaves (the results behind `pad` nulls, no more slots than
      `maxResults` unless nothing was padded), sliced, is the window. */
  lemma PaddedWindow(results: seq<EndpointResult>, maxResults: int, pad: nat, arr: seq<Slot>)
    requires arr == Nulls(pad) + Lift(results)
    requires |arr| >= maxResults
    requires pad == 0 || |arr| <= maxResults
    ensures SliceFrom(arr, -maxResults) == Window(results, maxResults)
  {
    if maxResults > 0 {
      PaddedWindowPositive(results, maxResults, pad, arr);
    } else {
      assert arr == Lift(results);
      PaddedWindowRest(results, maxResults);
    }
  }

  lemma PaddedWindowPositive(results: seq<EndpointResult>, maxResults: int, pad: nat, arr: seq<Slot>)
    requires arr == Nulls(pad) + Lift(results)
    requires maxResults > 0 && |arr| >= maxResults
    requires pad == 0 || |arr| <= maxResults
    ensures SliceFrom(arr, -maxResults) == Window(results, maxResults)
  {
    var display := SliceFrom(arr, -maxResults);
    var w := Window(results, maxResults);
    assert |display| == maxResults == |w|;
    forall i | 0 <= i < maxResults
      ensures display[i] == w[i]
    {
      assert display[i] == arr[|arr| - maxResults + i];
      if |arr| - maxResults + i >= pad {
        assert arr[|arr| - maxResults + i] == Lift(results)[|arr| - maxResults + i - pad];
      }
    }
  }

  lemma PaddedWindowRest(results: seq<EndpointResult>, maxResults: int)
    requires maxResults <= 0
    ensures SliceFrom(Lift(results), -maxResults) == Window(results, maxResults)
  {
    var k := Min(-maxResults, |results|);
    var display := SliceFrom(Lift(results), -maxResults);
    assert |display| == |results| - k;
    forall i | 0 <= i < |display|
      ensures display[i] == Some(results[k..][i])
    {
      assert display[i] == Lift(results)[k + i];
    }
  }

  /** A positive window has exactly `maxResults` slots; a slot is padding exactly when it
      lies before the last `|results|`, and the newest results fill the slots after it in order. */
  lemma WindowShape(results: seq<EndpointResult>, maxResults: int)
    requires maxResults > 0
    ensures var w := Window(results, maxResults);
      && |w| == maxResults
      && (forall i :: 0 <= i < maxResults ==> (w[i] == None <==> i < maxResults - |results|))
      && (forall i :: maxResults - |results| <= i < maxResults && 0 <= i ==>
            w[i] == Some(results[i - (maxResults - |results|)]))
  {
  }

  /** `slice(-0)` is `slice(0)`: with `maxResults == 0` the strip shows every result. */
  lemma WindowZeroShowsAll(results: seq<EndpointResult>)
    ensures Window(results, 0) == Lift(results)
  {
    assert results[0..] == results;
  }

  /** A negative `maxResults` drops the oldest `-maxResults` results and pads nothing. */
  lemma WindowNegativeDropsOldest(results: seq<EndpointResult>, maxResults: int)
    requires maxResults < 0
    ensures var w := Window(results, maxResults);
      && |w| == Max(0, |results| + maxResults)
      && forall i :: 0 <= i < |w| ==> w[i] == Some(results[i - maxResults])
  {
  }

  /** When the strip shows any result, the newest result is in its last slot. */
  lemma WindowEndsWithNewest(results: seq<EndpointResult>, maxResults: int)
    requires |results| > 0 && |Window(results, maxResults)| > 0
    ensures var w := Window(results, maxResults); w[|w| - 1] == Some(results[|results| - 1])
  {
  }

  // ---------------------------------------------------------------------------------
  // Segment colours

  datatype Colour = Neutral | Green | DarkGreen | Red | DarkRed

  /** The class list of segment `i`: padding is neutral; a result is green when it
      succeeded and red when it failed, in the darker shade when it is the selected one. */
  function SegmentColour(slot: Slot, i: nat, selectedIndex: Option<int>): (c: Colour)
    ensures c == Neutral <==> slot.None?
    ensures (c == Green || c == DarkGreen) <==> (slot.Some? && slot.value.success)
    ensures (c == Red || c == DarkRed) <==> (slot.Some? && !slot.value.success)
    ensures (c == DarkGreen || c == DarkRed) <==> (slot.Some? && selectedIndex == Some(i))
  {
    match slot
    case None => Neutral
    case Some(r) =>
      if r.success then (if selectedIndex == Some(i) then DarkGreen else Green)
      else if selectedIndex == Some(i) then DarkRed else Red
  }

  // ---------------------------------------------------------------------------------
  // Age labels; `now` is `Date.now()` at render time.

  /** The label under the strip for one result: its age as `formatTimeAgo` gives it; '' for none. */
  function AgeLabel(r: Slot, now: int): string
  {
    if r.Some? then TimeAgo(now - r.value.timestamp) else ""
  }

  /** The index the oldest label reads: `Math.max(0, results.length - maxResults)`. */
  function OldestIndexAsWritten(results: seq<EndpointResult>, maxResults: int): int
  {
    Max(0, |results| - maxResults)
  }

  /**
   * The oldest label as written. For `maxResults <= 0` and a non-empty list the index is
   * `len` or more, the element is `undefined` and reading `.timestamp` throws; `None`
   * stands for that exception.
   */
  function OldestLabelAsWritten(results: seq<EndpointResult>, maxResults: int, now: int): Option<string>
  {
    if |results| == 0 then Some("")
    else
      var idx := OldestIndexAsWritten(results, maxResults);
      if idx < |results| then Some(AgeLabel(Some(results[idx]), now)) else None
  }

  /** Without a positive window the written label reads past the end of a non-empty list. */
  lemma OldestLabelThrowsWithoutPositiveWindow(results: seq<EndpointResult>, maxResults: int, now: int)
    requires |results| > 0 && maxResults <= 0
    ensures OldestIndexAsWritten(results, maxResults) >= |results|
    ensures OldestLabelAsWritten(results, maxResults, now) == None
  {
  }

  /** The index of the first result slot of a strip, if any. */
  function FirstShown(w: seq<Slot>): (k: Option<nat>)
    ensures k.Some? ==> k.value < |w|
  {
    if w == [] then None
    else if w[0].Some? then Some(0)
    else match FirstShown(w[1..])
      case None => None
      case Some(k) => Some(k + 1)
  }

  /** `FirstShown` finds the first result slot, and finds none only when every slot is padding. */
  lemma {:induction false} FirstShownIsFirst(w: seq<Slot>)
    ensures var k := FirstShown(w);
      && (k.Some? ==> w[k.value].Some? && forall j :: 0 <= j < k.value ==> w[j].None?)
      && (k.None? ==> forall j :: 0 <= j < |w| ==> w[j].None?)
  {
    if w != [] && w[0].None? {
      FirstShownIsFirst(w[1..]);
      var k := FirstShown(w[1..]);
      if k.Some? {
        forall j | 0 <= j < k.value + 1
          ensures w[j].None?
        {
          if j > 0 {
            assert w[j] == w[1..][j - 1];
          }
        }
      } else {
        forall j | 0 <= j < |w|
          ensures w[j].None?
        {
          if j > 0 {
            assert w[j] == w[1..][j - 1];
          }
        }
      }
    }
  }

  /** The oldest result the strip shows, if it shows any. */
  function OldestShown(results: seq<EndpointResult>, maxResults: int): Option<EndpointResult>
  {
    var w := Window(results, maxResults);
    match FirstShown(w)
    case None => None
    case Some(k) => w[k]
  }

  /** The oldest label as intended: the age of the oldest result the strip shows, and ''
      when it shows none. */
  function OldestLabel(results: seq<EndpointResult>, maxResults: int, now: int): string
  {
    AgeLabel(OldestShown(results, maxResults), now)
  }

  /** For a positive window the written index is that of the oldest result shown, and the
      strip shows one exactly when there are results. */
  lemma OldestShownAgrees(results: seq<EndpointResult>, maxResults: int)
    requires maxResults > 0
    ensures OldestShown(results, maxResults).Some? <==> |results| > 0
    ensures |results| > 0 ==>
      OldestShown(results, maxResults) == Some(results[OldestIndexAsWritten(results, maxResults)])
  {
    var w := Window(results, maxResults);
    WindowShape(results, maxResults);
    var first := Max(0, maxResults - |results|);
    FirstShownIsFirst(w);
    if |results| > 0 {
      assert w[first].Some?;
      assert FirstShown(w) == Some(first);
    } else {
      assert FirstShown(w).None?;
    }
  }

  /** For a positive window, which every caller passes, the written label is the intended one. */
  lemma OldestLabelAgrees(results: seq<EndpointResult>, maxResults: int, now: int)
    requires maxResults > 0
    ensures OldestLabelAsWritten(results, maxResults, now) == Some(OldestLabel(results, maxResults, now))
  {
    OldestShownAgrees(results, maxResults);
  }

  /** With `maxResults == 0` the strip shows the one result, whose age the corrected label
      gives, where the written one throws. */
  lemma OldestLabelZeroWindowExample(r: EndpointResult)
    ensures OldestIndexAsWritten([r], 0) == 1
    ensures OldestShown([r], 0) == Some(r)
  {
    assert Window([r], 0) == [Some(r)];
  }

  /** The newest label: the age of the last result, '' when there is none. */
  function NewestLabel(results: seq<EndpointResult>, now: int): string
  {
    if |results| > 0 then AgeLabel(Some(results[|results| - 1]), now) else ""
  }

  /** The newest label always describes the last slot of a non-empty strip. */
  lemma NewestLabelIsLastSlot(results: seq<EndpointResult>, maxResults: int, now: int)
    requires |Window(results, maxResults)| > 0 && |results| > 0
    ensures var w := Window(results, maxResults);
      NewestLabel(results, now) == AgeLabel(w[|w| - 1], now)
  {
    WindowEndsWithNewest(results, maxResults);
  }

  // ---------------------------------------------------------------------------------
  // Mouse handlers

  /** The state a click leaves and what it does. */
  datatype ClickOutcome = ClickOutcome(selectedIndex: Option<int>, effects: seq<Effect>)

  /**
   * `handleClick(slot, i)` on strip `strip`: nothing at all for a padding segment or
   * without `onTooltip`; otherwise the clear broadcast, then either un-selecting the
   * already selected segment and telling the page to drop the tooltip, or selecting
   * segment `i` and pinning a tooltip on it.
   */
  function ClickStep(selectedIndex: Option<int>, slot: Slot, i: nat, strip: nat, hasTooltip: bool): (o: ClickOutcome)
    ensures (slot.None? || !hasTooltip) ==> o == ClickOutcome(selectedIndex, [])
    ensures (slot.Some? && hasTooltip) ==> |o.effects| == 2 && o.effects[0] == BroadcastClearSelection
    ensures (slot.Some? && hasTooltip) ==> (o.selectedIndex == None <==> selectedIndex == Some(i))
    ensures (slot.Some? && hasTooltip) ==> (o.selectedIndex.Some? ==> o.selectedIndex == Some(i))
    ensures |o.effects| == 2 ==>
      o.effects[1] == Notify(
        if o.selectedIndex.Some? then TooltipRequest(slot, Some(Segment(strip, i)), Click)
        else TooltipRequest(None, None, Click))
  {
    if slot.None? || !hasTooltip then ClickOutcome(selectedIndex, [])
    else if selectedIndex == Some(i) then
      ClickOutcome(None, [BroadcastClearSelection, Notify(TooltipRequest(None, None, Click))])
    else
      ClickOutcome(Some(i), [BroadcastClearSelection, Notify(TooltipRequest(slot, Some(Segment(strip, i)), Click))])
  }

  /** Two clicks on the same result segment leave it unselected, and the second click tells
      the page to drop the tooltip the first one pinned. */
  lemma ClickTwice(selectedIndex: Option<int>, r: EndpointResult, i: nat, strip: nat)
    requires selectedIndex != Some(i)
    ensures var o1 := ClickStep(selectedIndex, Some(r), i, strip, true);
      var o2 := ClickStep(o1.selectedIndex, Some(r), i, strip, true);
      && o1.selectedIndex == Some(i) && o2.selectedIndex == None
      && o1.effects[1] == Notify(TooltipRequest(Some(r), Some(Segment(strip, i)), Click))
      && o2.effects[1] == Notify(TooltipRequest(None, None, Click))
  {
  }

  /** One mounted strip. `id` tells its segments apart from other strips' segments. */
  class Strip {
    const id: nat
    var results: seq<EndpointResult>
    var maxResults: int
    var hasTooltip: bool
    var selectedIndex: Option<int>
    var display: seq<Slot>

    predicate Valid()
      reads this
    {
      display == Window(results, maxResults)
    }

    /** Mounting: nothing is selected. */
    constructor(id: nat, results: seq<EndpointResult>, maxResults: int, hasTooltip: bool)
      ensures Valid()
      ensures this.id == id && this.results == results && this.maxResults == maxResults
      ensures this.hasTooltip == hasTooltip && selectedIndex == None
    {
      this.id := id;
      this.results := results;
      this.maxResults := maxResults;
      this.hasTooltip := hasTooltip;
      selectedIndex := None;
      display := Window(results, maxResults);
    }

    /** A re-render with new props recomputes the window; React keeps the selection,
        even though the same index may now hold a different (or no) result. */
    method Rerender(newResults: seq<EndpointResult>, newMaxResults: int, newHasTooltip: bool)
      modifies this
      ensures Valid()
      ensures results == newResults && maxResults == newMaxResults && hasTooltip == newHasTooltip
      ensures selectedIndex == old(selectedIndex)
    {
      results, maxResults, hasTooltip := newResults, newMaxResults, newHasTooltip;
      display := BuildDisplay(newResults, newMaxResults);
    }

    /** `handleMouseEnter`: a hover request for a result segment, nothing for padding. */
    method MouseEnter(i: nat) returns (effects: seq<Effect>)
      requires Valid() && i < |display|
      ensures display[i].None? || !hasTooltip ==> effects == []
      ensures display[i].Some? && hasTooltip ==>
        effects == [Notify(TooltipRequest(display[i], Some(Segment(id, i)), Hover))]
    {
      if display[i].Some? && hasTooltip {
        effects := [Notify(TooltipRequest(display[i], Some(Segment(id, i)), Hover))];
      } else {
        effects := [];
      }
    }

    /** `handleMouseLeave`: always asks the page to drop a hover tooltip. */
    method MouseLeave() returns (effects: seq<Effect>)
      ensures hasTooltip ==> effects == [Notify(TooltipRequest(None, None, Hover))]
      ensures !hasTooltip ==> effects == []
    {
      effects := if hasTooltip then [Notify(TooltipRequest(None, None, Hover))] else [];
    }

    /** `handleClick` on segment `i`; only this strip's selection changes. */
    method Click(i: nat) returns (effects: seq<Effect>)
      requires Valid() && i < |display|
      modifies this
      ensures Valid()
      ensures var o := ClickStep(old(selectedIndex), old(display)[i], i, id, hasTooltip);
        selectedIndex == o.selectedIndex && effects == o.effects
      ensures results == old(results) && maxResults == old(maxResults)
      ensures hasTooltip == old(hasTooltip) && display == old(display)
    {
      var o := ClickStep(selectedIndex, display[i], i, id, hasTooltip);
      selectedIndex := o.selectedIndex;
      effects := o.effects;
    }
  }

  /** Two strips on one page keep their selections apart: a click changes only the strip
      clicked, so two strips can hold a selection at the same time. The first ensures is
      the frame of `Click`; that the click's broadcast reaches no other strip holds because
      no handler here consumes it, which `TooltipHost.BroadcastThenNotify` states for the
      page. */
  method ClickOneOfTwo(a: Strip, b: Strip, i: nat) returns (effects: seq<Effect>)
    requires a != b && b.Valid() && i < |b.display|
    modifies b
    ensures b.Valid() && a.selectedIndex == old(a.selectedIndex)
    ensures b.selectedIndex == ClickStep(old(b.selectedIndex), old(b.display)[i], i, b.id, b.hasTooltip).selectedIndex
  {
    effects := b.Click(i);
  }
}
