/**
 * `HandPinchSelectable`: a button that fires on the rising edge of a pinch
 * while the smoothed hand pointer is over it, with enter/exit padding
 * hysteresis, an optional viewport fence and a cooldown after each firing.
 *
 * `PinchState` is the snapshot of the runtime fields, `Step` one frame of
 * `Update`; the class keeps the same fields and is proved to follow `Step`.
 */
module HandPinch {
  import opened Common

  datatype PinchConfig = PinchConfig(
    mirrorX: bool,
    enterPaddingPx: real,
    exitPaddingPx: real,
    cooldownAfterPinch: real)

  /**
   * One frame: the unscaled clock, the receiver's sample (`body` set and
   * `IsDataValid`, the normalised pointer, the pinch flag), the screen size,
   * this frame's SmoothDamp output and the screen-space rectangles.
   */
  datatype PinchTick = PinchTick(
    now: real,
    dataValid: bool,
    pointer01: Point,
    pinching: bool,
    screenWidth: real,
    screenHeight: real,
    smoothed: Point,        // SmoothDamp(sm, RawScreen(cfg, this tick), ...), computed by the engine
    viewport: Option<Rect>,
    target: Rect)

  datatype PinchState = PinchState(hovering: bool, prevPinch: bool, coolUntil: real, sm: Point)

  datatype PinchOutcome = PinchOutcome(next: PinchState, fired: bool)

  /** The screen point handed to SmoothDamp: mirrored if asked, clamped, scaled. */
  function RawScreen(cfg: PinchConfig, t: PinchTick): (p: Point)
    ensures t.screenWidth >= 0.0 ==> 0.0 <= p.x <= t.screenWidth
    ensures t.screenHeight >= 0.0 ==> 0.0 <= p.y <= t.screenHeight
  {
    ScreenPoint(t.pointer01, cfg.mirrorX, t.screenWidth, t.screenHeight)
  }

  /** `RectContainsPadded`: the rectangle grown by `pad` on every side (shrunk when `pad < 0`). */
  predicate ContainsPadded(r: Rect, p: Point, pad: real)
  {
    Contains(Grow(r, pad), p)
  }

  /** Growing by more never loses a point. */
  lemma ContainsPaddedMonotone(r: Rect, p: Point, small: real, large: real)
    requires small <= large && ContainsPadded(r, p, small)
    ensures ContainsPadded(r, p, large)
  {
  }

  /** The state after `StartCooldown(sec)` at time `now`. */
  function AfterCooldown(s: PinchState, now: real, sec: real): PinchState
  {
    s.(coolUntil := now + Max(0.0, sec), prevPinch := false, hovering := false)
  }

  predicate InViewport(t: PinchTick)
  {
    t.viewport.None? || Contains(t.viewport.value, t.smoothed)
  }

  /** The padded hit test: exit padding while hovering, enter padding otherwise. */
  predicate InsideNow(cfg: PinchConfig, s: PinchState, t: PinchTick)
  {
    var insideEnter := ContainsPadded(t.target, t.smoothed, cfg.enterPaddingPx);
    var insideExit := ContainsPadded(t.target, t.smoothed, cfg.exitPaddingPx);
    if s.hovering then insideExit else insideEnter
  }

  /** One frame of `Update`. */
  function Step(cfg: PinchConfig, s: PinchState, t: PinchTick): PinchOutcome
  {
    if !t.dataValid || t.now < s.coolUntil then PinchOutcome(s, false)
    else
      var s1 := s.(sm := t.smoothed);
      if !InViewport(t) then PinchOutcome(s1.(hovering := false, prevPinch := false), false)
      else if InsideNow(cfg, s, t) then
        var s2 := s1.(hovering := true);
        if t.pinching && !s.prevPinch then
          PinchOutcome(AfterCooldown(s2, t.now, cfg.cooldownAfterPinch).(prevPinch := t.pinching), true)
        else PinchOutcome(s2.(prevPinch := t.pinching), false)
      else PinchOutcome(s1.(hovering := false, prevPinch := false), false)
  }

  /** Frames in a row; the second component counts the `onPinch` invocations. */
  function Run(cfg: PinchConfig, s: PinchState, ticks: seq<PinchTick>): (PinchState, nat)
    decreases |ticks|
  {
    if ticks == [] then (s, 0)
    else
      var o := Step(cfg, s, ticks[0]);
      var rest := Run(cfg, o.next, ticks[1..]);
      (rest.0, rest.1 + (if o.fired then 1 else 0))
  }

  // ---------------------------------------------------------------------
  // Properties of one frame
  // ---------------------------------------------------------------------

  /** Invalid data or a running cooldown: no event and no change at all. */
  lemma IdleFrameChangesNothing(cfg: PinchConfig, s: PinchState, t: PinchTick)
    requires !t.dataValid || t.now < s.coolUntil
    ensures Step(cfg, s, t) == PinchOutcome(s, false)
  {
  }

  /** A pointer outside the viewport clears hovering and the pinch memory and fires nothing. */
  lemma OutsideViewportClears(cfg: PinchConfig, s: PinchState, t: PinchTick)
    requires t.dataValid && t.now >= s.coolUntil && !InViewport(t)
    ensures var o := Step(cfg, s, t);
      !o.fired && !o.next.hovering && !o.next.prevPinch && o.next.coolUntil == s.coolUntil
  {
  }

  /**
   * Hysteresis: a hovering button keeps the pointer while it is within the
   * exit padding, an idle one takes it within the enter padding; with the
   * exit padding at least the enter padding, whatever may enter may stay.
   */
  lemma InsideUsesHysteresis(cfg: PinchConfig, s: PinchState, t: PinchTick)
    ensures InsideNow(cfg, s, t) <==>
      Contains(Grow(t.target, if s.hovering then cfg.exitPaddingPx else cfg.enterPaddingPx), t.smoothed)
    ensures cfg.enterPaddingPx <= cfg.exitPaddingPx && InsideNow(cfg, s.(hovering := false), t)
      ==> InsideNow(cfg, s.(hovering := true), t)
  {
    if cfg.enterPaddingPx <= cfg.exitPaddingPx && InsideNow(cfg, s.(hovering := false), t) {
      ContainsPaddedMonotone(t.target, t.smoothed, cfg.enterPaddingPx, cfg.exitPaddingPx);
    }
  }

  /** `onPinch` fires exactly on a rising pinch edge while inside, with valid data and no cooldown. */
  lemma FiresExactlyOnRisingEdge(cfg: PinchConfig, s: PinchState, t: PinchTick)
    ensures Step(cfg, s, t).fired <==>
      t.dataValid && t.now >= s.coolUntil && InViewport(t) && InsideNow(cfg, s, t)
      && t.pinching && !s.prevPinch
  {
  }

  /**
   * A firing frame starts the cooldown and drops hovering. `StartCooldown`
   * clears the pinch memory, but the frame then stores the current (held)
   * pinch, so the memory ends up set.
   */
  lemma FiringStartsCooldown(cfg: PinchConfig, s: PinchState, t: PinchTick)
    requires Step(cfg, s, t).fired
    ensures var n := Step(cfg, s, t).next;
      && n.coolUntil == t.now + Max(0.0, cfg.cooldownAfterPinch) && n.coolUntil >= t.now
      && !n.hovering && n.prevPinch
  {
  }

  /** An inside frame that does not fire hovers and remembers the pinch flag; an outside frame clears both. */
  lemma NonFiringFrameTracksPinch(cfg: PinchConfig, s: PinchState, t: PinchTick)
    requires t.dataValid && t.now >= s.coolUntil && InViewport(t)
    requires !Step(cfg, s, t).fired
    ensures var n := Step(cfg, s, t).next;
      && (InsideNow(cfg, s, t) ==> n.hovering && n.prevPinch == t.pinching)
      && (!InsideNow(cfg, s, t) ==> !n.hovering && !n.prevPinch)
      && n.coolUntil == s.coolUntil
  {
  }

  // ---------------------------------------------------------------------
  // Properties of several frames
  // ---------------------------------------------------------------------

  /** The frame keeps the pointer over the button whichever padding applies. */
  predicate FirmlyInside(cfg: PinchConfig, t: PinchTick)
  {
    InViewport(t)
    && ContainsPadded(t.target, t.smoothed, cfg.enterPaddingPx)
    && ContainsPadded(t.target, t.smoothed, cfg.exitPaddingPx)
  }

  /** A held pinch that stays over the button, once remembered, never fires. */
  lemma {:induction false} HeldPinchStaysQuiet(cfg: PinchConfig, s: PinchState, ticks: seq<PinchTick>)
    requires s.prevPinch
    requires forall i :: 0 <= i < |ticks| ==> ticks[i].pinching && FirmlyInside(cfg, ticks[i])
    ensures Run(cfg, s, ticks).1 == 0
    decreases |ticks|
  {
    if ticks != [] {
      var o := Step(cfg, s, ticks[0]);
      assert !o.fired && o.next.prevPinch;
      HeldPinchStaysQuiet(cfg, o.next, ticks[1..]);
    }
  }

  /** Holding one pinch over the button fires `onPinch` at most once. */
  lemma {:induction false} HeldPinchFiresAtMostOnce(cfg: PinchConfig, s: PinchState, ticks: seq<PinchTick>)
    requires forall i :: 0 <= i < |ticks| ==> ticks[i].pinching && FirmlyInside(cfg, ticks[i])
    ensures Run(cfg, s, ticks).1 <= 1
    decreases |ticks|
  {
    if ticks != [] {
      var o := Step(cfg, s, ticks[0]);
      if o.fired {
        HeldPinchStaysQuiet(cfg, o.next, ticks[1..]);
      } else {
        HeldPinchFiresAtMostOnce(cfg, o.next, ticks[1..]);
      }
    }
  }

  // ---------------------------------------------------------------------
  // The component, updating its fields in place
  // ---------------------------------------------------------------------

  class HandPinchSelectable {
    const cfg: PinchConfig
    var hovering: bool
    var prevPinch: bool
    var coolUntil: real
    var sm: Point

    function State(): PinchState
      reads this
    {
      PinchState(hovering, prevPinch, coolUntil, sm)
    }

    constructor (cfg: PinchConfig)
      ensures this.cfg == cfg && State() == PinchState(false, false, 0.0, Point(0.0, 0.0))
    {
      this.cfg := cfg;
      hovering, prevPinch, coolUntil := false, false, 0.0;
      sm := Point(0.0, 0.0);
    }

    method StartCooldown(now: real, sec: real)
      modifies this
      ensures State() == AfterCooldown(old(State()), now, sec)
    {
      coolUntil := now + Max(0.0, sec);
      prevPinch := false;
      hovering := false;
    }

    method Update(t: PinchTick) returns (fired: bool)
      modifies this
      ensures var o := Step(cfg, old(State()), t); State() == o.next && fired == o.fired
    {
      fired := false;
      if !t.dataValid { return; }
      if t.now < coolUntil { return; }

      sm := t.smoothed;

      if t.viewport.Some? && !Contains(t.viewport.value, sm) {
        hovering := false;
        prevPinch := false;
        return;
      }

      var insideEnter := ContainsPadded(t.target, sm, cfg.enterPaddingPx);
      var insideExit := ContainsPadded(t.target, sm, cfg.exitPaddingPx);
      var insideNow := if hovering then insideExit else insideEnter;

      if insideNow {
        hovering := true;
        var pinching := t.pinching;
        if pinching && !prevPinch {
          fired := true;
          StartCooldown(t.now, cfg.cooldownAfterPinch);
        }
        prevPinch := pinching;
      } else {
        hovering := false;
        prevPinch := false;
      }
    }
  }
}
