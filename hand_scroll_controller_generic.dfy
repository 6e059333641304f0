/**
 * `HandScrollControllerGeneric`: the pinch-drag rule of `HandScrollController`
 * on a chosen axis; the pointer coordinate of that axis drives the scroll
 * position of the same axis and the other axis is left alone.
 */
module HandScrollGeneric {
  import opened Common
  import HandScroll

  datatype Axis = Horizontal | Vertical

  /** The anchor and both normalised positions of the scroll view. */
  datatype GenericState = GenericState(anchor: HandScroll.Anchor, horizontal: real, vertical: real)

  function Coordinate(axis: Axis, p: Point): real
  {
    if axis == Horizontal then p.x else p.y
  }

  /** `OnEnable`: the anchor is dropped. */
  function Enable(s: GenericState): (r: GenericState)
    ensures !r.anchor.hasLast
    ensures r.(anchor := s.anchor) == s && r.anchor.last == s.anchor.last
  {
    s.(anchor := s.anchor.(hasLast := false))
  }

  /** One frame of `Update` on a present `scrollRect`. */
  function Step(cfg: HandScroll.ScrollConfig, axis: Axis, s: GenericState, t: HandScroll.ScrollTick): GenericState
  {
    if !t.dataValid then s
    else if cfg.requirePinchToScroll && !t.pinching then s.(anchor := s.anchor.(hasLast := false))
    else
      var position := if axis == Horizontal then s.horizontal else s.vertical;
      var f := HandScroll.Follow(cfg, s.anchor, Coordinate(axis, t.pointer01), position);
      if axis == Horizontal then GenericState(f.anchor, f.position, s.vertical)
      else GenericState(f.anchor, s.horizontal, f.position)
  }

  // ---------------------------------------------------------------------
  // Properties
  // ---------------------------------------------------------------------

  /** Invalid data changes nothing. */
  lemma InvalidFrameChangesNothing(cfg: HandScroll.ScrollConfig, axis: Axis, s: GenericState,
                                   t: HandScroll.ScrollTick)
    requires !t.dataValid
    ensures Step(cfg, axis, s, t) == s
  {
  }

  /** Releasing a required pinch drops the anchor and moves nothing. */
  lemma ReleaseDropsAnchor(cfg: HandScroll.ScrollConfig, axis: Axis, s: GenericState, t: HandScroll.ScrollTick)
    requires t.dataValid && cfg.requirePinchToScroll && !t.pinching
    ensures var n := Step(cfg, axis, s, t);
      !n.anchor.hasLast && n.horizontal == s.horizontal && n.vertical == s.vertical
  {
  }

  /**
   * Only the selected axis moves, driven by the same axis of the pointer
   * exactly as the horizontal controller drives its position; the other axis
   * keeps its value.
   */
  lemma OnlySelectedAxisMoves(cfg: HandScroll.ScrollConfig, axis: Axis, s: GenericState, t: HandScroll.ScrollTick)
    requires t.dataValid && !(cfg.requirePinchToScroll && !t.pinching)
    ensures var n := Step(cfg, axis, s, t);
      && (axis == Horizontal ==>
            n.vertical == s.vertical
            && HandScroll.Step(cfg, HandScroll.ScrollState(s.anchor, s.horizontal), t)
               == HandScroll.ScrollState(n.anchor, n.horizontal))
      && (axis == Vertical ==>
            n.horizontal == s.horizontal
            && HandScroll.Follow(cfg, s.anchor, t.pointer01.y, s.vertical) == HandScroll.ScrollState(n.anchor, n.vertical))
  {
  }

  /** A movement under the deadzone moves only the anchor. */
  lemma DeadzoneMovesOnlyAnchor(cfg: HandScroll.ScrollConfig, axis: Axis, s: GenericState, t: HandScroll.ScrollTick)
    requires t.dataValid && !(cfg.requirePinchToScroll && !t.pinching) && s.anchor.hasLast
    requires Abs(HandScroll.Movement(cfg, s.anchor.last, Clamp01(Coordinate(axis, t.pointer01)))) < cfg.deadZone
    ensures var n := Step(cfg, axis, s, t);
      && n.horizontal == s.horizontal && n.vertical == s.vertical
      && n.anchor == HandScroll.Anchor(Clamp01(Coordinate(axis, t.pointer01)), true)
  {
  }

  /** Both positions stay in [0,1]. */
  lemma StepKeepsUnitRange(cfg: HandScroll.ScrollConfig, axis: Axis, s: GenericState, t: HandScroll.ScrollTick)
    requires 0.0 <= s.horizontal <= 1.0 && 0.0 <= s.vertical <= 1.0
    ensures var n := Step(cfg, axis, s, t);
      0.0 <= n.horizontal <= 1.0 && 0.0 <= n.vertical <= 1.0
  {
    if t.dataValid && !(cfg.requirePinchToScroll && !t.pinching) {
      var position := if axis == Horizontal then s.horizontal else s.vertical;
      HandScroll.FollowKeepsUnitRange(cfg, s.anchor, Coordinate(axis, t.pointer01), position);
    }
  }

  // ---------------------------------------------------------------------
  // The component, updating its fields in place
  // ---------------------------------------------------------------------

  class HandScrollControllerGeneric {
    const cfg: HandScroll.ScrollConfig
    const axis: Axis
    const scrollRect: HandScroll.ScrollView?
    var last: real
    var hasLast: bool

    constructor (cfg: HandScroll.ScrollConfig, axis: Axis, scrollRect: HandScroll.ScrollView?)
      ensures this.cfg == cfg && this.axis == axis && this.scrollRect == scrollRect
      ensures last == 0.5 && !hasLast
    {
      this.cfg := cfg;
      this.axis := axis;
      this.scrollRect := scrollRect;
      last := 0.5;
      hasLast := false;
    }

    method OnEnable()
      modifies this
      ensures !hasLast && last == old(last)
    {
      hasLast := false;
    }

    method Update(t: HandScroll.ScrollTick)
      modifies this, scrollRect
      ensures scrollRect == null ==> last == old(last) && hasLast == old(hasLast)
      ensures scrollRect != null ==>
        var n := Step(cfg, axis, GenericState(HandScroll.Anchor(old(last), old(hasLast)),
                                              old(scrollRect.horizontal), old(scrollRect.vertical)), t);
        HandScroll.Anchor(last, hasLast) == n.anchor && scrollRect.horizontal == n.horizontal
        && scrollRect.vertical == n.vertical
    {
      if scrollRect == null || !t.dataValid { return; }
      if cfg.requirePinchToScroll && !t.pinching { hasLast := false; return; }

      var raw := if axis == Horizontal then t.pointer01.x else t.pointer01.y;
      var current := if axis == Horizontal then scrollRect.horizontal else scrollRect.vertical;
      var moved, newPos := Drag(raw, current);
      if moved {
        if axis == Horizontal {
          scrollRect.horizontal := newPos;
        } else {
          scrollRect.vertical := newPos;
        }
      }
    }

    /** The drag stages of `Update` for the selected coordinate: anchor, deadzone, new position. */
    method Drag(raw: real, current: real) returns (moved: bool, newPos: real)
      modifies this
      ensures var f := HandScroll.Follow(cfg, HandScroll.Anchor(old(last), old(hasLast)), raw, current);
        && HandScroll.Anchor(last, hasLast) == f.anchor
        && (if moved then newPos else current) == f.position
    {
      moved, newPos := false, current;
      var pos := Clamp01(raw);

      if !hasLast { last := pos; hasLast := true; return; }

      var d := pos - last;
      if cfg.invertDirection { d := -d; }
      if Abs(d) < cfg.deadZone { last := pos; return; }

      moved, newPos := true, Clamp01(current + d * cfg.scrollSpeed);
      last := pos;
    }
  }
}
