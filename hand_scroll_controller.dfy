/**
 * `HandScrollController`: pinch-and-drag horizontal scrolling of a
 * `ScrollRect`. While pinching, the pointer's x movement since the last
 * frame (ignoring movements under a deadzone, optionally inverted) moves the
 * normalised scroll position, which is clamped to [0,1].
 *
 * `Follow` is the drag rule shared with `HandScrollControllerGeneric`.
 */
module HandScroll {
  import opened Common

  datatype ScrollConfig = ScrollConfig(
    requirePinchToScroll: bool,
    deadZone: real,
    scrollSpeed: real,
    invertDirection: bool)

  /** One frame: `bodyData` set and valid, the pinch flag and the normalised pointer. */
  datatype ScrollTick = ScrollTick(dataValid: bool, pinching: bool, pointer01: Point)

  /** The drag anchor: the last clamped coordinate and whether there is one. */
  datatype Anchor = Anchor(last: real, hasLast: bool)

  /** A ScrollRect's normalised positions (1 is right / top). */
  class ScrollView {
    var horizontal: real
    var vertical: real

    constructor (horizontal: real, vertical: real)
      ensures this.horizontal == horizontal && this.vertical == vertical
    {
      this.horizontal := horizontal;
      this.vertical := vertical;
    }
  }

  datatype ScrollState = ScrollState(anchor: Anchor, position: real)

  /** The signed movement to apply: `coord - last`, negated when inverted. */
  function Movement(cfg: ScrollConfig, last: real, coord: real): real
  {
    if cfg.invertDirection then -(coord - last) else coord - last
  }

  /**
   * The drag rule for one coordinate once the gates pass: the first sample only
   * anchors; a movement under the deadzone only moves the anchor; otherwise the
   * position moves by `movement * scrollSpeed`, clamped to [0,1].
   */
  function Follow(cfg: ScrollConfig, a: Anchor, raw: real, position: real): (ScrollState)
  {
    var coord := Clamp01(raw);
    if !a.hasLast then ScrollState(Anchor(coord, true), position)
    else
      var d := Movement(cfg, a.last, coord);
      if Abs(d) < cfg.deadZone then ScrollState(Anchor(coord, true), position)
      else ScrollState(Anchor(coord, true), Clamp01(position + d * cfg.scrollSpeed))
  }

  /** One frame of `Update` on a present `scrollRect`. */
  function Step(cfg: ScrollConfig, s: ScrollState, t: ScrollTick): ScrollState
  {
    if !t.dataValid then s
    else if cfg.requirePinchToScroll && !t.pinching then s.(anchor := s.anchor.(hasLast := false))
    else Follow(cfg, s.anchor, t.pointer01.x, s.position)
  }

  function Run(cfg: ScrollConfig, s: ScrollState, ticks: seq<ScrollTick>): ScrollState
    decreases |ticks|
  {
    if ticks == [] then s else Run(cfg, Step(cfg, s, ticks[0]), ticks[1..])
  }

  // ---------------------------------------------------------------------
  // Properties
  // ---------------------------------------------------------------------

  /** Invalid data changes nothing. */
  lemma InvalidFrameChangesNothing(cfg: ScrollConfig, s: ScrollState, t: ScrollTick)
    requires !t.dataValid
    ensures Step(cfg, s, t) == s
  {
  }

  /** Releasing the pinch (when one is required) drops the anchor and keeps the position and the last value. */
  lemma ReleaseDropsAnchor(cfg: ScrollConfig, s: ScrollState, t: ScrollTick)
    requires t.dataValid && cfg.requirePinchToScroll && !t.pinching
    ensures var n := Step(cfg, s, t);
      !n.anchor.hasLast && n.anchor.last == s.anchor.last && n.position == s.position
  {
  }

  /**
   * A processed sample always anchors at the clamped coordinate. The first one
   * and one under the deadzone leave the position; any other moves it to
   * `Clamp01(position + movement * scrollSpeed)`.
   */
  lemma FollowAccounting(cfg: ScrollConfig, a: Anchor, raw: real, position: real)
    ensures var n := Follow(cfg, a, raw, position);
      && n.anchor == Anchor(Clamp01(raw), true)
      && (!a.hasLast ==> n.position == position)
      && (a.hasLast && Abs(Movement(cfg, a.last, Clamp01(raw))) < cfg.deadZone ==> n.position == position)
      && (a.hasLast && Abs(Movement(cfg, a.last, Clamp01(raw))) >= cfg.deadZone ==>
            n.position == Clamp01(position + Movement(cfg, a.last, Clamp01(raw)) * cfg.scrollSpeed))
      && 0.0 <= n.anchor.last <= 1.0
  {
  }

  /** A moved position is in [0,1]; an unmoved one is as before. */
  lemma FollowKeepsUnitRange(cfg: ScrollConfig, a: Anchor, raw: real, position: real)
    requires 0.0 <= position <= 1.0
    ensures 0.0 <= Follow(cfg, a, raw, position).position <= 1.0
  {
  }

  /**
   * Direction: with a non-negative speed, dragging towards larger coordinates
   * never lowers the position, and never raises it when inverted.
   */
  lemma DragDirection(cfg: ScrollConfig, a: Anchor, raw: real, position: real)
    requires 0.0 <= position <= 1.0 && cfg.scrollSpeed >= 0.0 && a.hasLast
    requires Clamp01(raw) >= a.last
    ensures !cfg.invertDirection ==> Follow(cfg, a, raw, position).position >= position
    ensures cfg.invertDirection ==> Follow(cfg, a, raw, position).position <= position
  {
    var d := Movement(cfg, a.last, Clamp01(raw));
    if cfg.invertDirection {
      assert d <= 0.0;
      assert d * cfg.scrollSpeed <= 0.0;
    } else {
      assert d >= 0.0;
      assert d * cfg.scrollSpeed >= 0.0;
    }
  }

  /** The scroll position stays in [0,1] over any frames. */
  lemma {:induction false} RunKeepsUnitRange(cfg: ScrollConfig, s: ScrollState, ticks: seq<ScrollTick>)
    requires 0.0 <= s.position <= 1.0
    ensures 0.0 <= Run(cfg, s, ticks).position <= 1.0
    decreases |ticks|
  {
    if ticks != [] {
      var n := Step(cfg, s, ticks[0]);
      if ticks[0].dataValid && !(cfg.requirePinchToScroll && !ticks[0].pinching) {
        FollowKeepsUnitRange(cfg, s.anchor, ticks[0].pointer01.x, s.position);
      }
      RunKeepsUnitRange(cfg, n, ticks[1..]);
    }
  }

  // ---------------------------------------------------------------------
  // The component, updating its fields in place
  // ---------------------------------------------------------------------

  class HandScrollController {
    const cfg: ScrollConfig
    const scrollRect: ScrollView?
    var lastX: real
    var hasLast: bool

    constructor (cfg: ScrollConfig, scrollRect: ScrollView?)
      ensures this.cfg == cfg && this.scrollRect == scrollRect
      ensures lastX == 0.5 && !hasLast
    {
      this.cfg := cfg;
      this.scrollRect := scrollRect;
      lastX := 0.5;
      hasLast := false;
    }

    /** `Update`: without a scroll view nothing happens; otherwise the frame follows `Step`. */
    method Update(t: ScrollTick)
      modifies this, scrollRect
      ensures scrollRect == null ==> lastX == old(lastX) && hasLast == old(hasLast)
      ensures scrollRect != null ==>
        var n := Step(cfg, ScrollState(Anchor(old(lastX), old(hasLast)), old(scrollRect.horizontal)), t);
        && Anchor(lastX, hasLast) == n.anchor && scrollRect.horizontal == n.position
        && scrollRect.vertical == old(scrollRect.vertical)
    {
      if scrollRect == null || !t.dataValid { return; }
      if cfg.requirePinchToScroll && !t.pinching {
        hasLast := false;
        return;
      }
      var x := Clamp01(t.pointer01.x);
      if !hasLast {
        lastX := x;
        hasLast := true;
        return;
      }
      var dx := x - lastX;
      if cfg.invertDirection { dx := -dx; }
      if Abs(dx) < cfg.deadZone {
        lastX := x;
        return;
      }
      var newPos := Clamp01(scrollRect.horizontal + dx * cfg.scrollSpeed);
      scrollRect.horizontal := newPos;
      lastX := x;
    }
  }
}
