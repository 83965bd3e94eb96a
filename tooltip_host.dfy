/**
 * The page-level tooltip state shared by the dashboard, the endpoint page and the suite
 * page: the result shown, the segment it is anchored to, and whether it is pinned. All
 * three pages implement `handleTooltip` and `dismissTooltip` identically; the machine is
 * defined once here.
 */
module TooltipHost {
  import opened Wrappers
  import opened Types
  import HealthBar

  datatype TooltipState = TooltipState(result: Option<EndpointResult>, anchor: Option<Anchor>, persistent: bool)

  const Cleared := TooltipState(None, None, false)

  /**
   * `handleTooltip(result, anchor, action)`: a click with a result pins it at the anchor,
   * a click without one clears everything; a hover moves the tooltip only while it is not
   * pinned and never pins or unpins it.
   */
  function Handle(st: TooltipState, req: TooltipRequest): TooltipState
  {
    match req.action
    case Click =>
      if req.result.None? then Cleared
      else TooltipState(req.result, req.anchor, true)
    case Hover =>
      if !st.persistent then TooltipState(req.result, req.anchor, st.persistent)
      else st
  }

  /** The three rules of `handleTooltip`, one per case. */
  lemma HandleRules(st: TooltipState, req: TooltipRequest)
    ensures req.action == Click && req.result.Some? ==>
      Handle(st, req) == TooltipState(req.result, req.anchor, true)
    ensures req.action == Click && req.result.None? ==> Handle(st, req) == Cleared
    ensures req.action == Hover ==> Handle(st, req).persistent == st.persistent
    ensures req.action == Hover && st.persistent ==> Handle(st, req) == st
    ensures req.action == Hover && !st.persistent ==>
      Handle(st, req).result == req.result && Handle(st, req).anchor == req.anchor
  {
  }

  /** Once pinned, no sequence of hovers changes what is shown. */
  lemma {:induction false} HoversKeepPinned(st: TooltipState, hovers: seq<TooltipRequest>)
    requires st.persistent
    requires forall i :: 0 <= i < |hovers| ==> hovers[i].action == Hover
    ensures HandleAll(st, hovers) == st
  {
    if hovers != [] {
      HoversKeepPinned(Handle(st, hovers[0]), hovers[1..]);
    }
  }

  /** The state after a series of requests, in order. */
  function HandleAll(st: TooltipState, reqs: seq<TooltipRequest>): TooltipState
    decreases |reqs|
  {
    if reqs == [] then st else HandleAll(Handle(st, reqs[0]), reqs[1..])
  }

  /** The element requests of a strip's effects, applied in order; the broadcast has no
      subscriber and changes nothing. */
  function ApplyEffects(st: TooltipState, effects: seq<Effect>): TooltipState
    decreases |effects|
  {
    if effects == [] then st
    else
      var next := match effects[0]
        case Notify(req) => Handle(st, req)
        case BroadcastClearSelection => st;
      ApplyEffects(next, effects[1..])
  }

  /** What a strip's click does to the page: the broadcast, then one request. */
  lemma BroadcastThenNotify(st: TooltipState, req: TooltipRequest)
    ensures ApplyEffects(st, [BroadcastClearSelection, Notify(req)]) == Handle(st, req)
  {
    var e := [BroadcastClearSelection, Notify(req)];
    assert e[1..] == [Notify(req)] && [Notify(req)][1..] == [];
    assert ApplyEffects(st, e) == ApplyEffects(st, [Notify(req)]);
    assert ApplyEffects(st, [Notify(req)]) == ApplyEffects(Handle(st, req), []);
  }

  /** Clicking a result segment of a strip pins a tooltip on it, and clicking it again
      (with no other click in between) clears the page's tooltip, from any starting state. */
  lemma ClickTwiceClearsHost(st: TooltipState, sel: Option<int>, r: EndpointResult, i: nat, strip: nat)
    requires sel != Some(i)
    ensures var o1 := HealthBar.ClickStep(sel, Some(r), i, strip, true);
      var o2 := HealthBar.ClickStep(o1.selectedIndex, Some(r), i, strip, true);
      var st1 := ApplyEffects(st, o1.effects);
      && st1 == TooltipState(Some(r), Some(Segment(strip, i)), true)
      && ApplyEffects(st1, o2.effects) == Cleared
  {
    HealthBar.ClickTwice(sel, r, i, strip);
    var o1 := HealthBar.ClickStep(sel, Some(r), i, strip, true);
    var q1 := TooltipRequest(Some(r), Some(Segment(strip, i)), Click);
    assert o1.effects == [BroadcastClearSelection, Notify(q1)];
    BroadcastThenNotify(st, q1);
    var st1 := ApplyEffects(st, o1.effects);
    var o2 := HealthBar.ClickStep(o1.selectedIndex, Some(r), i, strip, true);
    var q2 := TooltipRequest(None, None, Click);
    assert o2.effects == [BroadcastClearSelection, Notify(q2)];
    BroadcastThenNotify(st1, q2);
  }

  /** The state of one page's tooltip. */
  class Host {
    var result: Option<EndpointResult>
    var anchor: Option<Anchor>
    var persistent: bool

    function State(): TooltipState
      reads this
    {
      TooltipState(result, anchor, persistent)
    }

    constructor()
      ensures State() == Cleared
    {
      result, anchor, persistent := None, None, false;
    }

    method HandleTooltip(req: TooltipRequest)
      modifies this
      ensures State() == Handle(old(State()), req)
    {
      if req.action == Click {
        if req.result.None? {
          result, anchor, persistent := None, None, false;
        } else {
          result, anchor, persistent := req.result, req.anchor, true;
        }
      } else if !persistent {
        result, anchor := req.result, req.anchor;
      }
    }

    /** `dismissTooltip`: clears everything and broadcasts the clear event. */
    method DismissTooltip() returns (effects: seq<Effect>)
      modifies this
      ensures State() == Cleared
      ensures effects == [BroadcastClearSelection]
    {
      result, anchor, persistent := None, None, false;
      effects := [BroadcastClearSelection];
    }
  }
}
