/**
 * The result tooltip: where the box is placed next to the segment it describes, when it
 * is visible, when a click elsewhere dismisses it, and the response-time line it shows.
 *
 * DOM measurement is an input: `AnchorBox` is the anchor's `getBoundingClientRect()`,
 * `BoxSize` the rendered tooltip's, `Viewport` the window's size and scroll offsets. They
 * are reals because the browser reports fractional pixels; the stored position is rounded
 * with `Math.round`.
 */
module Tooltip {
  import opened Wrappers
  import opened Numeric
  import opened Strings
  import opened Types
  import opened Utils

  datatype AnchorBox = AnchorBox(top: real, bottom: real, left: real, right: real)
  datatype BoxSize = BoxSize(width: real, height: real)
  datatype Viewport = Viewport(innerWidth: real, innerHeight: real, scrollX: real, scrollY: real)
  datatype Pos = Pos(top: int, left: int)

  /** Not enough room below the anchor, and strictly more than enough above it. */
  predicate FlipsAbove(r: AnchorBox, t: BoxSize, vp: Viewport)
  {
    vp.innerHeight - r.bottom < t.height + 20.0 && r.top > t.height + 20.0
  }

  /** Not enough room to the right of the anchor's left edge. */
  predicate OverflowsRight(r: AnchorBox, t: BoxSize, vp: Viewport)
  {
    vp.innerWidth - r.left < t.width + 20.0
  }

  /** The unrounded top edge: 8px below the anchor, or flipped to end 8px above it. */
  function TopOf(r: AnchorBox, t: BoxSize, vp: Viewport): real
  {
    if FlipsAbove(r, t, vp) then r.top + vp.scrollY - t.height - 8.0
    else r.bottom + vp.scrollY + 8.0
  }

  /** The unrounded left edge: aligned with the anchor's left edge, or on overflow with its
      right edge, but never closer than 10px to the left of the viewport. */
  function LeftOf(r: AnchorBox, t: BoxSize, vp: Viewport): real
  {
    if OverflowsRight(r, t, vp) then
      var l := r.right + vp.scrollX - t.width;
      if l < vp.scrollX + 10.0 then vp.scrollX + 10.0 else l
    else r.left + vp.scrollX
  }

  /** The position `updatePosition` stores. */
  function Placement(r: AnchorBox, t: BoxSize, vp: Viewport): Pos
  {
    Pos(RoundReal(TopOf(r, t, vp)), RoundReal(LeftOf(r, t, vp)))
  }

  /** With room below and to the right the box sits just under the anchor, left-aligned. */
  lemma PlacementDefault(r: AnchorBox, t: BoxSize, vp: Viewport)
    requires vp.innerHeight - r.bottom >= t.height + 20.0
    requires vp.innerWidth - r.left >= t.width + 20.0
    ensures Placement(r, t, vp) == Pos(RoundReal(r.bottom + vp.scrollY + 8.0), RoundReal(r.left + vp.scrollX))
  {
  }

  /** The box ends 8px above the anchor's top exactly when it flips, and otherwise starts
      8px below the anchor's bottom (also when there is not strictly enough room above). */
  lemma VerticalPlacement(r: AnchorBox, t: BoxSize, vp: Viewport)
    ensures FlipsAbove(r, t, vp) ==> TopOf(r, t, vp) + t.height == r.top + vp.scrollY - 8.0
    ensures !FlipsAbove(r, t, vp) ==> TopOf(r, t, vp) == r.bottom + vp.scrollY + 8.0
  {
  }

  /** On overflow the box is right-aligned with the anchor unless that would put it within
      10px of the viewport's left edge, where it is held; it never starts further left. */
  lemma HorizontalPlacement(r: AnchorBox, t: BoxSize, vp: Viewport)
    ensures OverflowsRight(r, t, vp) ==> LeftOf(r, t, vp) >= vp.scrollX + 10.0
    ensures OverflowsRight(r, t, vp) && r.right + vp.scrollX - t.width >= vp.scrollX + 10.0 ==>
      LeftOf(r, t, vp) + t.width == r.right + vp.scrollX
    ensures OverflowsRight(r, t, vp) && r.right + vp.scrollX - t.width < vp.scrollX + 10.0 ==>
      LeftOf(r, t, vp) == vp.scrollX + 10.0
    ensures !OverflowsRight(r, t, vp) ==> LeftOf(r, t, vp) == r.left + vp.scrollX
  {
  }

  /** The vertical decision reads only vertical measurements and the horizontal one only
      horizontal ones: moving or resizing along one axis leaves the other coordinate alone. */
  lemma TopIgnoresHorizontal(r: AnchorBox, t: BoxSize, vp: Viewport, r': AnchorBox, t': BoxSize, vp': Viewport)
    requires r.top == r'.top && r.bottom == r'.bottom && t.height == t'.height
    requires vp.innerHeight == vp'.innerHeight && vp.scrollY == vp'.scrollY
    ensures Placement(r, t, vp).top == Placement(r', t', vp').top
  {
  }

  lemma LeftIgnoresVertical(r: AnchorBox, t: BoxSize, vp: Viewport, r': AnchorBox, t': BoxSize, vp': Viewport)
    requires r.left == r'.left && r.right == r'.right && t.width == t'.width
    requires vp.innerWidth == vp'.innerWidth && vp.scrollX == vp'.scrollX
    ensures Placement(r, t, vp).left == Placement(r', t', vp').left
  {
  }

  /** The stored coordinates are the computed edges rounded to the nearest pixel. */
  lemma PlacementRounded(r: AnchorBox, t: BoxSize, vp: Viewport)
    ensures var p := Placement(r, t, vp);
      && p.top as real - 0.5 <= TopOf(r, t, vp) < p.top as real + 0.5
      && p.left as real - 0.5 <= LeftOf(r, t, vp) < p.left as real + 0.5
  {
  }

  /**
   * The visibility effect: shown once there are both a result and an anchor, hidden when
   * either is missing on a tooltip that is not pinned, and left as it was when either is
   * missing on a pinned one.
   */
  function NextVisible(visible: bool, hasResult: bool, hasAnchor: bool, persistent: bool): bool
  {
    if hasResult && hasAnchor then true
    else if !persistent then false
    else visible
  }

  /** Running the effect again changes nothing, and a pinned tooltip is never hidden by it. */
  lemma NextVisibleSettles(visible: bool, hasResult: bool, hasAnchor: bool, persistent: bool)
    ensures var v := NextVisible(visible, hasResult, hasAnchor, persistent);
      NextVisible(v, hasResult, hasAnchor, persistent) == v
    ensures persistent && visible ==> NextVisible(visible, hasResult, hasAnchor, persistent)
    ensures NextVisible(visible, hasResult, hasAnchor, persistent) ==>
      (hasResult && hasAnchor) || (persistent && visible)
  {
  }

  /**
   * The document click handler of a pinned tooltip: a click dismisses it when the tooltip
   * is in the DOM, the click is outside it, and it did not land in any health strip (a click
   * on a segment re-targets the tooltip instead).
   */
  predicate ShouldDismiss(persistent: bool, mounted: bool, insideTooltip: bool, insideHealthBar: bool)
  {
    persistent && mounted && !insideTooltip && !insideHealthBar
  }

  /** Clicks inside the tooltip or on a strip never dismiss, nor does any click on an
      unpinned or unmounted tooltip; every other click does. */
  lemma DismissRule(persistent: bool, mounted: bool, insideTooltip: bool, insideHealthBar: bool)
    ensures insideTooltip || insideHealthBar ==> !ShouldDismiss(persistent, mounted, insideTooltip, insideHealthBar)
    ensures !persistent || !mounted ==> !ShouldDismiss(persistent, mounted, insideTooltip, insideHealthBar)
    ensures persistent && mounted && !insideTooltip && !insideHealthBar ==>
      ShouldDismiss(persistent, mounted, insideTooltip, insideHealthBar)
  {
  }

  /** "Response Time": the duration in milliseconds with the fraction cut off, then "ms". */
  function ResponseTimeLine(duration: nat): string
  {
    IntToString(duration / NsPerMs) + "ms"
  }

  /** The tooltip's figure reads back as the truncated milliseconds, which never exceed
      the rounded figure `durationMs` gives and are at most one below it. */
  lemma ResponseTimeLineValue(duration: nat)
    ensures ParseInt(ResponseTimeLine(duration)) == Some(duration / NsPerMs)
    ensures duration / NsPerMs <= RoundDiv(duration, NsPerMs) <= duration / NsPerMs + 1
  {
    ParseIntOfNumeral(duration / NsPerMs, "ms");
    RoundDivAtLeastFloor(duration, NsPerMs);
    RoundDivAtMostFloorPlusOne(duration, NsPerMs);
  }

  /** The "Conditions" and "Errors" sections appear only for non-empty lists. */
  predicate ShowsConditions(r: EndpointResult)
  {
    r.conditionResults.Some? && |r.conditionResults.value| > 0
  }

  predicate ShowsErrors(r: EndpointResult)
  {
    r.errors.Some? && |r.errors.value| > 0
  }

  /** One mounted tooltip with its current props and state. */
  class TooltipBox {
    var result: Option<EndpointResult>
    var anchor: Option<Anchor>
    var persistent: bool
    var visible: bool
    var pos: Pos

    /** Nothing is rendered unless the tooltip is visible and has a result; only then does
        `ref.current` exist for measuring and for the outside-click test. */
    predicate Rendered()
      reads this
    {
      visible && result.Some?
    }

    constructor()
      ensures result == None && anchor == None && !persistent
      ensures !visible && pos == Pos(0, 0)
    {
      result, anchor, persistent := None, None, false;
      visible := false;
      pos := Pos(0, 0);
    }

    /** New props from the page, followed by the visibility effect. `measure` says whether
        the effect schedules `updatePosition` for the next frame. */
    method SetProps(newResult: Option<EndpointResult>, newAnchor: Option<Anchor>, newPersistent: bool)
      returns (measure: bool)
      modifies this
      ensures result == newResult && anchor == newAnchor && persistent == newPersistent
      ensures visible == NextVisible(old(visible), newResult.Some?, newAnchor.Some?, newPersistent)
      ensures measure <==> newResult.Some? && newAnchor.Some?
      ensures pos == old(pos)
    {
      result, anchor, persistent := newResult, newAnchor, newPersistent;
      measure := false;
      if result.Some? && anchor.Some? {
        visible := true;
        measure := true;
      } else if !persistent {
        visible := false;
      }
    }

    /** `updatePosition` with the anchor measured as `r`, the box as `t`: nothing happens
        without an anchor or without a rendered box. */
    method UpdatePosition(r: AnchorBox, t: BoxSize, vp: Viewport)
      modifies this
      ensures anchor.None? || !Rendered() ==> pos == old(pos)
      ensures anchor.Some? && Rendered() ==> pos == Placement(r, t, vp)
      ensures result == old(result) && anchor == old(anchor)
      ensures persistent == old(persistent) && visible == old(visible)
    {
      if anchor.None? || !Rendered() {
        return;
      }
      var top := r.bottom + vp.scrollY + 8.0;
      var left := r.left + vp.scrollX;
      if vp.innerHeight - r.bottom < t.height + 20.0 && r.top > t.height + 20.0 {
        top := r.top + vp.scrollY - t.height - 8.0;
      }
      if vp.innerWidth - r.left < t.width + 20.0 {
        left := r.right + vp.scrollX - t.width;
        if left < vp.scrollX + 10.0 {
          left := vp.scrollX + 10.0;
        }
      }
      pos := Pos(RoundReal(top), RoundReal(left));
    }

    /** The outside-click test of the current tooltip; the handler exists only while pinned. */
    method DocumentClick(insideTooltip: bool, insideHealthBar: bool) returns (dismiss: bool)
      ensures dismiss == ShouldDismiss(persistent, Rendered(), insideTooltip, insideHealthBar)
    {
      dismiss := false;
      if persistent && Rendered() && !insideTooltip {
        dismiss := !insideHealthBar;
      }
    }
  }
}
