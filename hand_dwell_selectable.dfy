/**
 * `HandDwellSelectable`: one palm-dwell button. Each frame it runs a gated
 * state machine (spawn/cooldown block, pinch gate with debounce, viewport
 * fence, enter/exit padding hysteresis, "outside since cooldown", palm
 * stability delay, linear hold accrual, selection and cooldown, linear decay).
 *
 * `DwellState` is the snapshot of the component's runtime fields and
 * `Update` the specification of one frame; the class `HandDwellSelectable`
 * keeps the same fields and updates them in place, and each of its methods
 * is proved to produce exactly the specified new state.
 */
module HandDwell {
  import opened Common

  /** The inspector settings of one dwell button. */
  datatype DwellConfig = DwellConfig(
    hasRing: bool,                 // a progress ring Image is assigned
    showRingOnlyOnHover: bool,
    dwellSeconds: real,
    resetSeconds: real,
    requireHandDetected: bool,
    allowPointerAsPresence: bool,
    onlyPalm: bool,
    pinchDebounceSec: real,
    enterPaddingPx: real,
    exitPaddingPx: real,
    graceSeconds: real,
    palmDelaySeconds: real,
    resetProgressOnPinch: bool,
    requireEnterFromOutside: bool,
    spawnBlockSeconds: real,
    cooldownAfterSelect: real)

  /**
   * What one frame offers: the unscaled clock and delta time, the receiver's
   * sample, this frame's SmoothDamp output and the screen-space rectangles.
   */
  datatype DwellTick = DwellTick(
    now: real,
    dt: real,
    dataValid: bool,     // body and targetRect are set and body.IsDataValid
    pinching: bool,      // body.is_pinching
    handPresent: bool,   // body.HandPresentWithGrace(0.35)
    smoothed: Point,     // smoothed screen position after this frame's SmoothDamp
    viewport: Option<Rect>,
    target: Rect)

  /** The progress ring: fill amount and whether the Image is enabled. */
  datatype Ring = Ring(fill: real, visible: bool)

  datatype DwellState = DwellState(
    holdTime: real,
    hovering: bool,
    lastInsideTime: real,
    cooldownUntil: real,
    spawnBlockUntil: real,
    wasOutsideSinceCooldown: bool,
    lastPinchTime: real,
    palmOnThisItemStart: real,   // -1 when the palm timer is not running
    ring: Ring)

  datatype DwellOutcome = DwellOutcome(next: DwellState, selected: bool)

  const NoPalmTimer: real := -1.0

  /** The state right after `Awake` at time `now`. */
  function Awake(cfg: DwellConfig, now: real): (s: DwellState)
    ensures s.holdTime == 0.0 && !s.hovering && !s.wasOutsideSinceCooldown
    ensures s.spawnBlockUntil >= now && s.spawnBlockUntil >= now + cfg.spawnBlockSeconds
    ensures s.palmOnThisItemStart < 0.0
  {
    DwellState(0.0, false, 0.0, 0.0, now + Max(0.0, cfg.spawnBlockSeconds), false, -999.0, NoPalmTimer,
               Ring(0.0, cfg.hasRing && !cfg.showRingOnlyOnHover))
  }

  /** Hold time drained by one frame of decay (`DecayAndDraw`). */
  function DecayedHold(cfg: DwellConfig, hold: real, dt: real): real
  {
    if hold > 0.0 then Max(0.0, hold - cfg.dwellSeconds / Max(0.001, cfg.resetSeconds) * dt)
    else hold
  }

  /** The ring-visibility rule of `DrawRing`. */
  predicate RingVisible(cfg: DwellConfig, allowVisible: bool, hovering: bool, amount: real)
  {
    if cfg.showRingOnlyOnHover then allowVisible && (hovering || amount > 0.0) else allowVisible
  }

  /** The ring after `DrawRing(amount, allowVisible)`: without a ring nothing changes. */
  function RingAfter(cfg: DwellConfig, s: DwellState, amount: real, allowVisible: bool): Ring
  {
    if cfg.hasRing then Ring(amount, RingVisible(cfg, allowVisible, s.hovering, amount)) else s.ring
  }

  /** The state after `DecayAndDraw`. */
  function AfterDecay(cfg: DwellConfig, s: DwellState, dt: real): DwellState
  {
    var s1 := s.(holdTime := DecayedHold(cfg, s.holdTime, dt), hovering := false);
    s1.(ring := RingAfter(cfg, s1, Fill(s1.holdTime, cfg.dwellSeconds), false))
  }

  /** The state after `StartCooldown(seconds)` at time `now`. */
  function AfterCooldown(cfg: DwellConfig, s: DwellState, now: real, seconds: real): DwellState
  {
    var until := now + Max(0.0, seconds);
    var s1 := s.(cooldownUntil := until, spawnBlockUntil := Max(s.spawnBlockUntil, until),
                 holdTime := 0.0, hovering := false, wasOutsideSinceCooldown := false,
                 palmOnThisItemStart := NoPalmTimer);
    s1.(ring := RingAfter(cfg, s1, 0.0, false))
  }

  /** `RectContainsScreenPointPadded`: plain containment unless the pad is positive. */
  predicate ContainsPadded(r: Rect, p: Point, pad: real)
  {
    if pad <= 0.0 then Contains(r, p) else Contains(Grow(r, pad), p)
  }

  /** A larger pad never loses a point (both pads may be non-positive). */
  lemma ContainsPaddedMonotone(r: Rect, p: Point, small: real, large: real)
    requires small <= large
    requires ContainsPadded(r, p, small)
    ensures ContainsPadded(r, p, large)
  {
  }

  predicate Blocked(s: DwellState, t: DwellTick)
  {
    t.now < s.cooldownUntil || t.now < s.spawnBlockUntil
  }

  /** "Inside" this frame: the viewport fence, then exit padding while hovering, enter padding otherwise. */
  predicate InsideNow(cfg: DwellConfig, s: DwellState, t: DwellTick)
  {
    var insideViewport := t.viewport.None? || Contains(t.viewport.value, t.smoothed);
    var insideEnter := insideViewport && ContainsPadded(t.target, t.smoothed, cfg.enterPaddingPx);
    var insideExit := insideViewport && ContainsPadded(t.target, t.smoothed, cfg.exitPaddingPx);
    if s.hovering then insideExit else insideEnter
  }

  /** Presence: hand seen with grace, or (when allowed) any valid pointer data. */
  predicate PresenceNow(cfg: DwellConfig, t: DwellTick)
  {
    if cfg.requireHandDetected then t.handPresent || (cfg.allowPointerAsPresence && t.dataValid)
    else t.handPresent
  }

  /** The palm timer may run: inside, present, and (if required) seen outside since the cooldown. */
  predicate Eligible(cfg: DwellConfig, s: DwellState, t: DwellTick)
  {
    InsideNow(cfg, s, t) && PresenceNow(cfg, t) &&
    (!cfg.requireEnterFromOutside || s.wasOutsideSinceCooldown)
  }

  function PalmStart(cfg: DwellConfig, s: DwellState, t: DwellTick): real
  {
    if !Eligible(cfg, s, t) then NoPalmTimer
    else if s.palmOnThisItemStart < 0.0 then t.now
    else s.palmOnThisItemStart
  }

  /** Progress may accrue this frame (`ringReadyThisFrame`). */
  predicate Ready(cfg: DwellConfig, s: DwellState, t: DwellTick)
  {
    Eligible(cfg, s, t) && t.now - PalmStart(cfg, s, t) >= cfg.palmDelaySeconds
  }

  /** The pointer stages of `Update`, reached once the block, validity and pinch gates pass. */
  function Track(cfg: DwellConfig, s: DwellState, t: DwellTick): DwellOutcome
  {
    var inside := InsideNow(cfg, s, t);
    var s1 := s.(wasOutsideSinceCooldown := s.wasOutsideSinceCooldown || !inside,
                 lastInsideTime := if inside then t.now else s.lastInsideTime,
                 palmOnThisItemStart := PalmStart(cfg, s, t));
    if Ready(cfg, s, t) then
      var s2 := s1.(hovering := true, holdTime := s1.holdTime + t.dt);
      var fill := Fill(s2.holdTime, cfg.dwellSeconds);
      var s3 := s2.(ring := RingAfter(cfg, s2, fill, true));
      if fill >= 1.0 then DwellOutcome(AfterCooldown(cfg, s3, t.now, cfg.cooldownAfterSelect), true)
      else DwellOutcome(s3, false)
    else if t.now - s1.lastInsideTime > cfg.graceSeconds then DwellOutcome(AfterDecay(cfg, s1, t.dt), false)
    else DwellOutcome(s1.(ring := RingAfter(cfg, s1, 0.0, false)), false)
  }

  /** One frame of `Update`: the next state and whether `onSelected` fired. */
  function Step(cfg: DwellConfig, s: DwellState, t: DwellTick): DwellOutcome
  {
    if Blocked(s, t) || !t.dataValid then DwellOutcome(AfterDecay(cfg, s, t.dt), false)
    else if cfg.onlyPalm && t.pinching then
      var s1 := s.(lastPinchTime := t.now);
      var s2 := if cfg.resetProgressOnPinch then s1.(holdTime := 0.0, palmOnThisItemStart := NoPalmTimer) else s1;
      DwellOutcome(s2.(ring := RingAfter(cfg, s2, 0.0, false)), false)
    else if cfg.onlyPalm && t.now - s.lastPinchTime < cfg.pinchDebounceSec then
      DwellOutcome(s.(ring := RingAfter(cfg, s, Fill(s.holdTime, cfg.dwellSeconds), false)), false)
    else Track(cfg, s, t)
  }

  /** Frames in a row; the second component counts the selections fired. */
  function Run(cfg: DwellConfig, s: DwellState, ticks: seq<DwellTick>): (DwellState, nat)
    decreases |ticks|
  {
    if ticks == [] then (s, 0)
    else
      var o := Step(cfg, s, ticks[0]);
      var rest := Run(cfg, o.next, ticks[1..]);
      (rest.0, rest.1 + (if o.selected then 1 else 0))
  }

  // ---------------------------------------------------------------------
  // Properties of one frame
  // ---------------------------------------------------------------------

  /** During spawn block or cooldown, or with invalid data: no selection, hold only decays, not hovering, ring hidden. */
  lemma BlockedFrameOnlyDecays(cfg: DwellConfig, s: DwellState, t: DwellTick)
    requires Blocked(s, t) || !t.dataValid
    requires s.holdTime >= 0.0 && t.dt >= 0.0 && cfg.dwellSeconds >= 0.0
    ensures var o := Step(cfg, s, t);
      && !o.selected
      && 0.0 <= o.next.holdTime <= s.holdTime
      && !o.next.hovering
      && (cfg.hasRing ==> !o.next.ring.visible)
      && o.next.cooldownUntil == s.cooldownUntil && o.next.spawnBlockUntil == s.spawnBlockUntil
  {
    DecayStaysInRange(cfg, s.holdTime, t.dt);
  }

  /** Decay lowers the hold by `dwellSeconds / max(0.001, resetSeconds) * dt`, never below zero. */
  lemma DecayStaysInRange(cfg: DwellConfig, hold: real, dt: real)
    requires hold >= 0.0 && dt >= 0.0 && cfg.dwellSeconds >= 0.0
    ensures 0.0 <= DecayedHold(cfg, hold, dt) <= hold
    ensures hold > 0.0 ==> DecayedHold(cfg, hold, dt) == Max(0.0, hold - cfg.dwellSeconds / Max(0.001, cfg.resetSeconds) * dt)
  {
    var rate := cfg.dwellSeconds / Max(0.001, cfg.resetSeconds);
    assert rate >= 0.0;
    assert rate * dt >= 0.0;
  }

  /** With `onlyPalm`, a pinching frame never selects; it zeroes progress only if `resetProgressOnPinch`. */
  lemma PinchFrameNeverSelects(cfg: DwellConfig, s: DwellState, t: DwellTick)
    requires !Blocked(s, t) && t.dataValid
    requires cfg.onlyPalm && t.pinching
    ensures var o := Step(cfg, s, t);
      && !o.selected
      && o.next.lastPinchTime == t.now
      && o.next.holdTime == (if cfg.resetProgressOnPinch then 0.0 else s.holdTime)
      && o.next.palmOnThisItemStart == (if cfg.resetProgressOnPinch then NoPalmTimer else s.palmOnThisItemStart)
      && (cfg.hasRing ==> !o.next.ring.visible)
  {
  }

  /** For `pinchDebounceSec` after the last pinch, nothing but the (hidden) ring changes. */
  lemma DebounceFrameKeepsProgress(cfg: DwellConfig, s: DwellState, t: DwellTick)
    requires !Blocked(s, t) && t.dataValid
    requires cfg.onlyPalm && !t.pinching && t.now - s.lastPinchTime < cfg.pinchDebounceSec
    ensures var o := Step(cfg, s, t);
      && !o.selected
      && o.next.(ring := s.ring) == s
      && (cfg.hasRing ==> !o.next.ring.visible)
  {
  }

  /** Outside the viewport a point is never inside, whatever the padding. */
  lemma OutsideViewportIsOutside(cfg: DwellConfig, s: DwellState, t: DwellTick)
    requires t.viewport.Some? && !Contains(t.viewport.value, t.smoothed)
    ensures !InsideNow(cfg, s, t) && !Ready(cfg, s, t)
  {
  }

  /**
   * Hysteresis: while hovering the exit padding decides, otherwise the enter
   * padding. When the exit padding is at least the enter padding, a point that
   * may enter may also stay.
   */
  lemma InsideUsesHysteresis(cfg: DwellConfig, s: DwellState, t: DwellTick)
    requires t.viewport.None? || Contains(t.viewport.value, t.smoothed)
    ensures InsideNow(cfg, s, t) <==>
      ContainsPadded(t.target, t.smoothed, if s.hovering then cfg.exitPaddingPx else cfg.enterPaddingPx)
    ensures cfg.enterPaddingPx <= cfg.exitPaddingPx && InsideNow(cfg, s.(hovering := false), t)
      ==> InsideNow(cfg, s.(hovering := true), t)
  {
    if cfg.enterPaddingPx <= cfg.exitPaddingPx && InsideNow(cfg, s.(hovering := false), t) {
      ContainsPaddedMonotone(t.target, t.smoothed, cfg.enterPaddingPx, cfg.exitPaddingPx);
    }
  }

  /**
   * Progress (a grown hold or a selection) needs all gates: not blocked, valid,
   * not pinching or debouncing, inside, present, outside-since-cooldown if
   * required, and the palm held for `palmDelaySeconds`.
   */
  lemma ProgressNeedsPalmDelay(cfg: DwellConfig, s: DwellState, t: DwellTick)
    requires s.holdTime >= 0.0 && t.dt >= 0.0
    ensures var o := Step(cfg, s, t);
      (o.selected || o.next.holdTime > s.holdTime) && cfg.dwellSeconds >= 0.0 ==>
        && !Blocked(s, t) && t.dataValid
        && !(cfg.onlyPalm && t.pinching)
        && !(cfg.onlyPalm && t.now - s.lastPinchTime < cfg.pinchDebounceSec)
        && InsideNow(cfg, s, t) && PresenceNow(cfg, t)
        && (cfg.requireEnterFromOutside ==> s.wasOutsideSinceCooldown)
        && t.now - PalmStart(cfg, s, t) >= cfg.palmDelaySeconds
  {
    var o := Step(cfg, s, t);
    if (o.selected || o.next.holdTime > s.holdTime) && cfg.dwellSeconds >= 0.0 {
      DecayStaysInRange(cfg, s.holdTime, t.dt);
    }
  }

  /** A frame that reaches the pointer stages but is not eligible stops the palm timer. */
  lemma InterruptionResetsPalmTimer(cfg: DwellConfig, s: DwellState, t: DwellTick)
    requires !Blocked(s, t) && t.dataValid
    requires !(cfg.onlyPalm && t.pinching) && !(cfg.onlyPalm && t.now - s.lastPinchTime < cfg.pinchDebounceSec)
    requires !Eligible(cfg, s, t)
    ensures Step(cfg, s, t).next.palmOnThisItemStart == NoPalmTimer
  {
  }

  /**
   * A ready frame adds `dt` to the hold; it selects exactly when the fill
   * reaches 1, and selecting starts the cooldown of `cooldownAfterSelect`.
   */
  lemma ReadyFrameAccruesAndSelectsAtFull(cfg: DwellConfig, s: DwellState, t: DwellTick)
    requires !Blocked(s, t) && t.dataValid
    requires !(cfg.onlyPalm && t.pinching) && !(cfg.onlyPalm && t.now - s.lastPinchTime < cfg.pinchDebounceSec)
    requires Ready(cfg, s, t)
    ensures var o := Step(cfg, s, t);
      && (o.selected <==> Fill(s.holdTime + t.dt, cfg.dwellSeconds) >= 1.0)
      && (!o.selected ==> o.next.holdTime == s.holdTime + t.dt && o.next.hovering)
      && (cfg.dwellSeconds > 0.0 && s.holdTime + t.dt >= cfg.dwellSeconds ==> o.selected)
      && (o.selected ==>
            && o.next.cooldownUntil == t.now + Max(0.0, cfg.cooldownAfterSelect)
            && o.next.spawnBlockUntil == Max(s.spawnBlockUntil, o.next.cooldownUntil)
            && o.next.holdTime == 0.0 && !o.next.hovering && !o.next.wasOutsideSinceCooldown
            && o.next.palmOnThisItemStart == NoPalmTimer)
  {
  }

  /** What `StartCooldown(seconds)` leaves behind. */
  lemma StartCooldownResets(cfg: DwellConfig, s: DwellState, now: real, seconds: real)
    ensures var c := AfterCooldown(cfg, s, now, seconds);
      && c.cooldownUntil == now + Max(0.0, seconds) && c.cooldownUntil >= now
      && c.spawnBlockUntil == Max(s.spawnBlockUntil, c.cooldownUntil)
      && c.holdTime == 0.0 && !c.hovering && !c.wasOutsideSinceCooldown
      && c.palmOnThisItemStart == NoPalmTimer
      && c.lastPinchTime == s.lastPinchTime && c.lastInsideTime == s.lastInsideTime
  {
  }

  /** While waiting for the palm delay, a pointer inside within `graceSeconds` keeps the hold. */
  lemma GraceKeepsHold(cfg: DwellConfig, s: DwellState, t: DwellTick)
    requires !Blocked(s, t) && t.dataValid
    requires !(cfg.onlyPalm && t.pinching) && !(cfg.onlyPalm && t.now - s.lastPinchTime < cfg.pinchDebounceSec)
    requires !Ready(cfg, s, t)
    requires t.now - (if InsideNow(cfg, s, t) then t.now else s.lastInsideTime) <= cfg.graceSeconds
    ensures var o := Step(cfg, s, t); !o.selected && o.next.holdTime == s.holdTime
  {
  }

  // ---------------------------------------------------------------------
  // Properties of several frames
  // ---------------------------------------------------------------------

  /** Frames that all come before `cooldownUntil` select nothing and leave the cooldown as it is. */
  lemma {:induction false} NoSelectionBeforeCooldownEnds(cfg: DwellConfig, s: DwellState, ticks: seq<DwellTick>)
    requires forall i :: 0 <= i < |ticks| ==> ticks[i].now < s.cooldownUntil
    ensures Run(cfg, s, ticks).1 == 0
    ensures Run(cfg, s, ticks).0.cooldownUntil == s.cooldownUntil
    decreases |ticks|
  {
    if ticks != [] {
      var o := Step(cfg, s, ticks[0]);
      assert Blocked(s, ticks[0]);
      assert !o.selected && o.next.cooldownUntil == s.cooldownUntil;
      NoSelectionBeforeCooldownEnds(cfg, o.next, ticks[1..]);
    }
  }

  /** One frame keeps the hold time non-negative when time does not run backwards. */
  lemma StepKeepsHoldNonNegative(cfg: DwellConfig, s: DwellState, t: DwellTick)
    requires s.holdTime >= 0.0 && t.dt >= 0.0 && cfg.dwellSeconds >= 0.0
    ensures Step(cfg, s, t).next.holdTime >= 0.0
  {
    DecayStaysInRange(cfg, s.holdTime, t.dt);
  }

  /** Any number of frames keeps the hold time non-negative. */
  lemma {:induction false} RunKeepsHoldNonNegative(cfg: DwellConfig, s: DwellState, ticks: seq<DwellTick>)
    requires s.holdTime >= 0.0 && cfg.dwellSeconds >= 0.0
    requires forall i :: 0 <= i < |ticks| ==> ticks[i].dt >= 0.0
    ensures Run(cfg, s, ticks).0.holdTime >= 0.0
    decreases |ticks|
  {
    if ticks != [] {
      StepKeepsHoldNonNegative(cfg, s, ticks[0]);
      RunKeepsHoldNonNegative(cfg, Step(cfg, s, ticks[0]).next, ticks[1..]);
    }
  }

  /** After a selection at time `now`, no frame before `now + max(0, cooldownAfterSelect)` selects again. */
  lemma NoSecondSelectionDuringCooldown(cfg: DwellConfig, s: DwellState, t: DwellTick, later: seq<DwellTick>)
    requires Step(cfg, s, t).selected
    requires forall i :: 0 <= i < |later| ==> later[i].now < t.now + Max(0.0, cfg.cooldownAfterSelect)
    ensures Run(cfg, Step(cfg, s, t).next, later).1 == 0
  {
    var o := Step(cfg, s, t);
    assert o.next.cooldownUntil == t.now + Max(0.0, cfg.cooldownAfterSelect);
    NoSelectionBeforeCooldownEnds(cfg, o.next, later);
  }

  // ---------------------------------------------------------------------
  // The component, updating its fields in place
  // ---------------------------------------------------------------------

  class HandDwellSelectable {
    const cfg: DwellConfig
    var holdTime: real
    var hovering: bool
    var lastInsideTime: real
    var cooldownUntil: real
    var spawnBlockUntil: real
    var wasOutsideSinceCooldown: bool
    var lastPinchTime: real
    var palmOnThisItemStart: real
    var ringFill: real
    var ringVisible: bool

    function State(): DwellState
      reads this
    {
      DwellState(holdTime, hovering, lastInsideTime, cooldownUntil, spawnBlockUntil,
                 wasOutsideSinceCooldown, lastPinchTime, palmOnThisItemStart, Ring(ringFill, ringVisible))
    }

    /** `Awake` at time `now`. */
    constructor (cfg: DwellConfig, now: real)
      ensures this.cfg == cfg && State() == Awake(cfg, now)
    {
      this.cfg := cfg;
      holdTime, hovering, lastInsideTime, cooldownUntil := 0.0, false, 0.0, 0.0;
      spawnBlockUntil := now + Max(0.0, cfg.spawnBlockSeconds);
      wasOutsideSinceCooldown := false;
      lastPinchTime := -999.0;
      palmOnThisItemStart := NoPalmTimer;
      ringFill := 0.0;
      ringVisible := cfg.hasRing && !cfg.showRingOnlyOnHover;
    }

    method DrawRing(amount: real, allowVisible: bool)
      modifies this
      ensures State() == old(State()).(ring := RingAfter(cfg, old(State()), amount, allowVisible))
    {
      if !cfg.hasRing { return; }
      ringFill := amount;
      var shouldShow := allowVisible && (hovering || amount > 0.0);
      ringVisible := if cfg.showRingOnlyOnHover then shouldShow else allowVisible;
    }

    method DecayAndDraw(dt: real)
      modifies this
      ensures State() == AfterDecay(cfg, old(State()), dt)
    {
      if holdTime > 0.0 {
        var decayPerSec := cfg.dwellSeconds / Max(0.001, cfg.resetSeconds);
        holdTime := Max(0.0, holdTime - decayPerSec * dt);
      }
      hovering := false;
      DrawRing(Fill(holdTime, cfg.dwellSeconds), false);
    }

    /** Called by the menu code and after a selection; `now` is the unscaled clock. */
    method StartCooldown(now: real, seconds: real)
      modifies this
      ensures State() == AfterCooldown(cfg, old(State()), now, seconds)
      ensures cooldownUntil == now + Max(0.0, seconds) && holdTime == 0.0 && !hovering
    {
      var s := Max(0.0, seconds);
      cooldownUntil := now + s;
      spawnBlockUntil := Max(spawnBlockUntil, cooldownUntil);
      holdTime := 0.0;
      hovering := false;
      wasOutsideSinceCooldown := false;
      palmOnThisItemStart := NoPalmTimer;
      DrawRing(0.0, false);
    }

    method Update(t: DwellTick) returns (selected: bool)
      modifies this
      ensures var o := Step(cfg, old(State()), t); State() == o.next && selected == o.selected
    {
      selected := false;
      if t.now < cooldownUntil || t.now < spawnBlockUntil {
        DecayAndDraw(t.dt);
        return;
      }
      if !t.dataValid {
        DecayAndDraw(t.dt);
        return;
      }

      // pinch gate
      if cfg.onlyPalm && t.pinching {
        lastPinchTime := t.now;
        if cfg.resetProgressOnPinch {
          holdTime := 0.0;
          palmOnThisItemStart := NoPalmTimer;
        }
        DrawRing(0.0, false);
        return;
      }
      if cfg.onlyPalm && t.now - lastPinchTime < cfg.pinchDebounceSec {
        DrawRing(Fill(holdTime, cfg.dwellSeconds), false);
        return;
      }

      selected := TrackPointer(t);
    }

    /** The pointer stages of `Update`: hysteresis, presence, palm delay, accrual or decay. */
    method TrackPointer(t: DwellTick) returns (selected: bool)
      modifies this
      ensures var o := Track(cfg, old(State()), t); State() == o.next && selected == o.selected
    {
      selected := false;
      ghost var s0 := State();
      var insideViewport := t.viewport.None? || Contains(t.viewport.value, t.smoothed);
      var insideEnter := insideViewport && ContainsPadded(t.target, t.smoothed, cfg.enterPaddingPx);
      var insideExit := insideViewport && ContainsPadded(t.target, t.smoothed, cfg.exitPaddingPx);
      var insideNow := if hovering then insideExit else insideEnter;
      assert insideNow == InsideNow(cfg, s0, t);

      if !insideNow { wasOutsideSinceCooldown := true; }
      if insideNow { lastInsideTime := t.now; }

      var presenceNow := PresenceNow(cfg, t);

      var ringReady := false;
      if insideNow && presenceNow && (!cfg.requireEnterFromOutside || wasOutsideSinceCooldown) {
        if palmOnThisItemStart < 0.0 { palmOnThisItemStart := t.now; }
        var palmHeld := t.now - palmOnThisItemStart;
        if palmHeld >= cfg.palmDelaySeconds { ringReady := true; }
      } else {
        palmOnThisItemStart := NoPalmTimer;
      }
      assert ringReady == Ready(cfg, s0, t);

      if ringReady {
        hovering := true;
        holdTime := holdTime + t.dt;
        var fill := Fill(holdTime, cfg.dwellSeconds);
        DrawRing(fill, true);
        if fill >= 1.0 {
          selected := true;
          StartCooldown(t.now, cfg.cooldownAfterSelect);
        }
      } else {
        var outsideForLong := t.now - lastInsideTime > cfg.graceSeconds;
        if outsideForLong { DecayAndDraw(t.dt); } else { DrawRing(0.0, false); }
      }
    }
  }
}
