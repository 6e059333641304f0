/**
 * `HandCursorSprite.MoveNow`: the hand-cursor stabiliser. It runs at most
 * once per frame and decides, from fresh or recently fresh data, whether the
 * hand is present (Chebyshev distance from the centre, with hysteresis),
 * whether it moved past a deadzone, whether to fade the cursor in or out,
 * and where to draw it (a prediction step clamped per axis and to [0,1]).
 *
 * The One-Euro filter arithmetic and the alpha SmoothDamp are frame inputs:
 * `filtered` is the filter's new (xHat, dxHat) for a non-first sample, and
 * `alphaIn`/`alphaOut` are the SmoothDamp results towards 1 and towards 0.
 */
module CursorSprite {
  import opened Common

  /** `Mathf.PI` as a single-precision constant. */
  const Pi: real := 3.14159274

  datatype CursorConfig = CursorConfig(
    hasImage: bool,
    mirrorX: bool,
    showDeadzone01: real,
    hideDeadzone01: real,
    pinchCountsAsPresence: bool,
    hideGraceSec: real,
    extraLead: real,
    maxPredictStep01: real,
    movementThreshold: real,
    validGraceSec: real,
    minVisibleSec: real)

  datatype CursorTick = CursorTick(
    frame: int,             // Time.frameCount
    now: real,              // Time.unscaledTime
    bodySet: bool,          // the `body` receiver is assigned
    dataValid: bool,        // body.IsDataValid (read only when bodySet)
    pointer01: Point,
    pinching: bool,
    lastUpdateTime: real,   // when the receiver got its last sample
    filtered: (Point, Point),
    alphaIn: real,
    alphaOut: real)

  datatype CursorState = CursorState(
    xHat: Point,
    dxHat: Point,
    hasPrev: bool,
    lastMoveFrame: int,
    wasPresent: bool,
    lastSeenTime: real,
    lastValidTime: real,
    lastVisibleOnTime: real,
    curAlpha: real)

  /** The next state and the normalised position handed to `ApplyPosition`, if any. */
  datatype CursorOutcome = CursorOutcome(next: CursorState, shown: Option<Point>)

  /** The state right after `Awake`. */
  function Initial(): CursorState
  {
    CursorState(Point(0.0, 0.0), Point(0.0, 0.0), false, -1, false, 0.0, 0.0, 0.0, 0.0)
  }

  // ---------------------------------------------------------------------
  // Pure helpers
  // ---------------------------------------------------------------------

  /** `AlphaCoef`: the One-Euro smoothing factor for a cutoff frequency and a time step. */
  function AlphaCoef(cutoff: real, dt: real): (a: real)
    ensures 0.0 < a < 1.0
  {
    var w := 2.0 * Pi * Max(0.0001, cutoff);
    PositiveQuotient(1.0, w);
    var tau := 1.0 / w;
    PositiveQuotient(tau, Max(0.0001, dt));
    var q := tau / Max(0.0001, dt);
    ReciprocalBelowOne(1.0 + q);
    1.0 / (1.0 + q)
  }

  lemma PositiveQuotient(a: real, b: real)
    requires a > 0.0 && b > 0.0
    ensures a / b > 0.0
  {
    var q := a / b;
    assert q * b == a;
  }

  lemma ReciprocalBelowOne(x: real)
    requires x > 1.0
    ensures 0.0 < 1.0 / x < 1.0
  {
    var r := 1.0 / x;
    assert r * x == 1.0;
    assert (1.0 - r) * x == x - 1.0;
  }

  /** The pointer, mirrored when asked (not clamped). */
  function Sample(cfg: CursorConfig, t: CursorTick): Point
  {
    if cfg.mirrorX then Point(1.0 - t.pointer01.x, t.pointer01.y) else t.pointer01
  }

  /** `delta.magnitude < movementThreshold`, compared squared. */
  predicate WithinThreshold(from: Point, to: Point, threshold: real)
  {
    var dx := to.x - from.x;
    var dy := to.y - from.y;
    threshold > 0.0 && dx * dx + dy * dy < threshold * threshold
  }

  /** Chebyshev distance of a normalised point from the screen centre. */
  function CentreDistance(p: Point): real
  {
    Max(Abs(p.x - 0.5), Abs(p.y - 0.5))
  }

  /** Presence with hysteresis: the hide deadzone once present, the show deadzone before. */
  predicate PresentNow(cfg: CursorConfig, s: CursorState, t: CursorTick)
  {
    var dead := if s.wasPresent then cfg.hideDeadzone01 else cfg.showDeadzone01;
    CentreDistance(Sample(cfg, t)) > dead || (t.pinching && cfg.pinchCountsAsPresence)
  }

  /** The age of the receiver's sample, clamped to [0, 0.05]. */
  function SampleAge(t: CursorTick): (r: real)
    ensures 0.0 <= r <= 0.05
  {
    Clamp(t.now - t.lastUpdateTime, 0.0, 0.05)
  }

  /** One axis of the prediction: the step clamped to ±`maxStep`, the result clamped to [0,1]. */
  function PredictAxis(x: real, dx: real, leadSec: real, maxStep: real): (r: real)
    ensures 0.0 <= r <= 1.0
    ensures 0.0 <= x <= 1.0 && maxStep >= 0.0 ==> -maxStep <= r - x <= maxStep
  {
    Clamp01(x + Clamp(dx * leadSec, -maxStep, maxStep))
  }

  /** Where the cursor is drawn: `xHat` led by `dxHat` over the sample age plus `extraLead`. */
  function Predict(cfg: CursorConfig, xHat: Point, dxHat: Point, t: CursorTick): (p: Point)
    ensures 0.0 <= p.x <= 1.0 && 0.0 <= p.y <= 1.0
  {
    var leadSec := SampleAge(t) + cfg.extraLead;
    Point(PredictAxis(xHat.x, dxHat.x, leadSec, cfg.maxPredictStep01),
          PredictAxis(xHat.y, dxHat.y, leadSec, cfg.maxPredictStep01))
  }

  // ---------------------------------------------------------------------
  // One call of MoveNow
  // ---------------------------------------------------------------------

  /** `FadeTo(target)`: only its `lastVisibleOnTime` stamp and the new alpha. */
  function FadeTo(cfg: CursorConfig, s: CursorState, fadeIn: bool, t: CursorTick): CursorState
  {
    if !cfg.hasImage then s
    else
      var target := if fadeIn then 1.0 else 0.0;
      s.(lastVisibleOnTime := if target > 0.99 && s.curAlpha < 0.99 then t.now else s.lastVisibleOnTime,
         curAlpha := if fadeIn then t.alphaIn else t.alphaOut)
  }

  /** Fade out once unseen for longer than `hideGraceSec` and shown for at least `minVisibleSec`. */
  predicate MayHide(cfg: CursorConfig, s: CursorState, t: CursorTick)
  {
    t.now - s.lastSeenTime > cfg.hideGraceSec && t.now - s.lastVisibleOnTime >= cfg.minVisibleSec
  }

  /** No usable sample: fade out if allowed, otherwise keep showing the cursor at `xHat`. */
  function Linger(cfg: CursorConfig, s: CursorState, t: CursorTick): CursorOutcome
  {
    if MayHide(cfg, s, t) then CursorOutcome(FadeTo(cfg, s, false, t), None)
    else CursorOutcome(FadeTo(cfg, s, true, t), Some(s.xHat))
  }

  /** `fresh`: the receiver is assigned and reports valid data. */
  predicate Fresh(t: CursorTick)
  {
    t.bodySet && t.dataValid
  }

  /** `fresh || withinValidGrace` for the state after the freshness stamp. */
  predicate UsableData(cfg: CursorConfig, s: CursorState, t: CursorTick)
  {
    Fresh(t) || t.now - s.lastValidTime <= cfg.validGraceSec
  }

  /** The part of `MoveNow` that runs on usable data (fresh, or stale within `validGraceSec`). */
  function Track(cfg: CursorConfig, s: CursorState, t: CursorTick): CursorOutcome
  {
    var p01 := Sample(cfg, t);
    if s.hasPrev && WithinThreshold(s.xHat, p01, cfg.movementThreshold) then
      CursorOutcome(FadeTo(cfg, s.(wasPresent := true, lastSeenTime := t.now), true, t), Some(s.xHat))
    else if !PresentNow(cfg, s, t) then Linger(cfg, s, t)
    else
      var s1 := FadeTo(cfg, s.(wasPresent := true, lastSeenTime := t.now), true, t);
      var s2 := if !s1.hasPrev then s1.(xHat := p01, dxHat := Point(0.0, 0.0), hasPrev := true)
                else s1.(xHat := t.filtered.0, dxHat := t.filtered.1);
      CursorOutcome(s2, Some(Predict(cfg, s2.xHat, s2.dxHat, t)))
  }

  /**
   * One call of `MoveNow`. With the receiver unassigned but within the valid
   * grace, reading `body.pointerPosition` throws: the call ends with only the
   * frame stamp written and nothing drawn.
   */
  function Step(cfg: CursorConfig, s: CursorState, t: CursorTick): CursorOutcome
  {
    if s.lastMoveFrame == t.frame then CursorOutcome(s, None)
    else
      var s1 := s.(lastMoveFrame := t.frame,
                   lastValidTime := if Fresh(t) then t.now else s.lastValidTime);
      if !UsableData(cfg, s1, t) then Linger(cfg, s1, t)
      else if !t.bodySet then CursorOutcome(s1, None)
      else Track(cfg, s1, t)
  }

  // ---------------------------------------------------------------------
  // Properties
  // ---------------------------------------------------------------------

  /** `MoveNow` is hooked to two callbacks; the second call in a frame changes nothing. */
  lemma SecondCallInFrameIsIgnored(cfg: CursorConfig, s: CursorState, t: CursorTick)
    ensures var n := Step(cfg, s, t).next;
      n.lastMoveFrame == t.frame && Step(cfg, n, t) == CursorOutcome(n, None)
  {
  }

  /**
   * Stale data from an assigned receiver within `validGraceSec` of the last
   * fresh sample is treated exactly like fresh data.
   */
  lemma StaleWithinGraceActsFresh(cfg: CursorConfig, s: CursorState, t: CursorTick)
    requires s.lastMoveFrame != t.frame && t.bodySet && !t.dataValid
    requires t.now - s.lastValidTime <= cfg.validGraceSec
    ensures var stale := Step(cfg, s, t);
      var live := Step(cfg, s, t.(dataValid := true));
      stale.shown == live.shown && stale.next == live.next.(lastValidTime := s.lastValidTime)
  {
  }

  /**
   * Stale data past the grace freezes the filter and the presence memory; the
   * cursor fades out exactly when unseen for over `hideGraceSec` and shown for
   * at least `minVisibleSec`, and otherwise stays at `xHat`.
   */
  lemma StalePastGraceFreezes(cfg: CursorConfig, s: CursorState, t: CursorTick)
    requires s.lastMoveFrame != t.frame && !Fresh(t)
    requires t.now - s.lastValidTime > cfg.validGraceSec
    ensures var o := Step(cfg, s, t);
      && o.next.xHat == s.xHat && o.next.dxHat == s.dxHat && o.next.hasPrev == s.hasPrev
      && o.next.wasPresent == s.wasPresent && o.next.lastSeenTime == s.lastSeenTime
      && o.next.lastValidTime == s.lastValidTime
      && (o.shown.None? <==> MayHide(cfg, s, t))
      && (o.shown.Some? ==> o.shown.value == s.xHat)
  {
  }

  /**
   * An unassigned receiver within `validGraceSec` of the last fresh sample:
   * the read of `body.pointerPosition` throws after the frame stamp, so the
   * call leaves every other field as it was and draws nothing.
   */
  lemma UnassignedReceiverThrows(cfg: CursorConfig, s: CursorState, t: CursorTick)
    requires s.lastMoveFrame != t.frame && !t.bodySet
    requires t.now - s.lastValidTime <= cfg.validGraceSec
    ensures Step(cfg, s, t) == CursorOutcome(s.(lastMoveFrame := t.frame), None)
  {
  }

  /** Once the filter has a sample, a move within the deadzone keeps `xHat` and `dxHat` and counts as seen. */
  lemma DeadzoneKeepsFilter(cfg: CursorConfig, s: CursorState, t: CursorTick)
    requires s.lastMoveFrame != t.frame && t.bodySet && (t.dataValid || t.now - s.lastValidTime <= cfg.validGraceSec)
    requires s.hasPrev && WithinThreshold(s.xHat, Sample(cfg, t), cfg.movementThreshold)
    ensures var o := Step(cfg, s, t);
      && o.next.xHat == s.xHat && o.next.dxHat == s.dxHat
      && o.next.wasPresent && o.next.lastSeenTime == t.now && o.shown == Some(s.xHat)
  {
  }

  /**
   * Presence decides between tracking and lingering: a present sample is
   * seen and drawn at the prediction, an absent one leaves the filter and
   * the presence memory alone.
   */
  lemma PresenceDecides(cfg: CursorConfig, s: CursorState, t: CursorTick)
    requires s.lastMoveFrame != t.frame && t.bodySet && (t.dataValid || t.now - s.lastValidTime <= cfg.validGraceSec)
    requires !(s.hasPrev && WithinThreshold(s.xHat, Sample(cfg, t), cfg.movementThreshold))
    ensures var o := Step(cfg, s, t);
      && (PresentNow(cfg, s, t) ==>
            && o.next.wasPresent && o.next.lastSeenTime == t.now && o.next.hasPrev
            && o.shown == Some(Predict(cfg, o.next.xHat, o.next.dxHat, t)))
      && (!PresentNow(cfg, s, t) ==>
            && o.next.xHat == s.xHat && o.next.dxHat == s.dxHat && o.next.hasPrev == s.hasPrev
            && o.next.wasPresent == s.wasPresent && o.next.lastSeenTime == s.lastSeenTime)
  {
  }

  /**
   * Presence thresholds: a counted pinch is always present; otherwise, with the
   * hide deadzone at least the show deadzone (as the defaults are), a hand
   * present under the hide deadzone is also present under the show deadzone.
   */
  lemma PresenceThresholds(cfg: CursorConfig, s: CursorState, t: CursorTick)
    ensures t.pinching && cfg.pinchCountsAsPresence ==> PresentNow(cfg, s, t)
    ensures cfg.showDeadzone01 <= cfg.hideDeadzone01 && PresentNow(cfg, s.(wasPresent := true), t)
      ==> PresentNow(cfg, s.(wasPresent := false), t)
  {
  }

  /** `wasPresent` is never cleared. */
  lemma PresenceIsSticky(cfg: CursorConfig, s: CursorState, t: CursorTick)
    requires s.wasPresent
    ensures Step(cfg, s, t).next.wasPresent
  {
  }

  /** The first present sample snaps the filter to the pointer with zero velocity. */
  lemma FirstSampleSnaps(cfg: CursorConfig, s: CursorState, t: CursorTick)
    requires s.lastMoveFrame != t.frame && t.bodySet && (t.dataValid || t.now - s.lastValidTime <= cfg.validGraceSec)
    requires !s.hasPrev && PresentNow(cfg, s, t)
    ensures var n := Step(cfg, s, t).next;
      n.xHat == Sample(cfg, t) && n.dxHat == Point(0.0, 0.0) && n.hasPrev
  {
  }

  /**
   * Whatever is drawn lies in [0,1]^2, and a prediction moves at most
   * `maxPredictStep01` per axis from `xHat`. The bound on the new `xHat`
   * rests on the frame input `filtered.0` being in [0,1]: the One-Euro
   * update is a lerp of the in-range `xHat` towards the in-range pointer
   * with a factor `AlphaCoef` in (0,1), which stays in range, but that
   * arithmetic is an input here rather than computed.
   */
  lemma DrawnPositionIsClamped(cfg: CursorConfig, s: CursorState, t: CursorTick)
    requires cfg.maxPredictStep01 >= 0.0
    requires 0.0 <= s.xHat.x <= 1.0 && 0.0 <= s.xHat.y <= 1.0
    requires 0.0 <= t.filtered.0.x <= 1.0 && 0.0 <= t.filtered.0.y <= 1.0
    requires 0.0 <= t.pointer01.x <= 1.0 && 0.0 <= t.pointer01.y <= 1.0
    ensures var o := Step(cfg, s, t);
      && 0.0 <= o.next.xHat.x <= 1.0 && 0.0 <= o.next.xHat.y <= 1.0
      && (o.shown.Some? ==>
            && 0.0 <= o.shown.value.x <= 1.0 && 0.0 <= o.shown.value.y <= 1.0
            && Abs(o.shown.value.x - o.next.xHat.x) <= cfg.maxPredictStep01
            && Abs(o.shown.value.y - o.next.xHat.y) <= cfg.maxPredictStep01)
  {
  }

  /** `FadeTo(1)` stamps `lastVisibleOnTime` exactly when the cursor was not yet (almost) opaque. */
  lemma FadeInStampsVisibleTime(cfg: CursorConfig, s: CursorState, t: CursorTick)
    requires cfg.hasImage
    ensures FadeTo(cfg, s, true, t).lastVisibleOnTime == (if s.curAlpha < 0.99 then t.now else s.lastVisibleOnTime)
    ensures FadeTo(cfg, s, false, t).lastVisibleOnTime == s.lastVisibleOnTime
  {
  }

  // ---------------------------------------------------------------------
  // The component, updating its fields in place
  // ---------------------------------------------------------------------

  class HandCursorSprite {
    const cfg: CursorConfig
    var xHat: Point
    var dxHat: Point
    var hasPrev: bool
    var lastMoveFrame: int
    var wasPresent: bool
    var lastSeenTime: real
    var lastValidTime: real
    var lastVisibleOnTime: real
    var curAlpha: real

    function State(): CursorState
      reads this
    {
      CursorState(xHat, dxHat, hasPrev, lastMoveFrame, wasPresent, lastSeenTime, lastValidTime,
                  lastVisibleOnTime, curAlpha)
    }

    constructor (cfg: CursorConfig)
      ensures this.cfg == cfg && State() == Initial()
    {
      this.cfg := cfg;
      xHat, dxHat, hasPrev, lastMoveFrame := Point(0.0, 0.0), Point(0.0, 0.0), false, -1;
      wasPresent, lastSeenTime, lastValidTime, lastVisibleOnTime, curAlpha := false, 0.0, 0.0, 0.0, 0.0;
    }

    method Fade(fadeIn: bool, t: CursorTick)
      modifies this
      ensures State() == FadeTo(cfg, old(State()), fadeIn, t)
    {
      if !cfg.hasImage { return; }
      var target := if fadeIn then 1.0 else 0.0;
      if target > 0.99 && curAlpha < 0.99 { lastVisibleOnTime := t.now; }
      curAlpha := if fadeIn then t.alphaIn else t.alphaOut;
    }

    method Hold(t: CursorTick) returns (shown: Option<Point>)
      modifies this
      ensures var o := Linger(cfg, old(State()), t); State() == o.next && shown == o.shown
    {
      var sinceSeen := t.now - lastSeenTime;
      var sinceShown := t.now - lastVisibleOnTime;
      if sinceSeen > cfg.hideGraceSec && sinceShown >= cfg.minVisibleSec {
        Fade(false, t);
        shown := None;
      } else {
        Fade(true, t);
        shown := Some(xHat);
      }
    }

    method MoveNow(t: CursorTick) returns (shown: Option<Point>)
      modifies this
      ensures var o := Step(cfg, old(State()), t); State() == o.next && shown == o.shown
    {
      if lastMoveFrame == t.frame { return None; }
      lastMoveFrame := t.frame;

      var isFresh := t.bodySet && t.dataValid;
      if isFresh { lastValidTime := t.now; }
      var withinValidGrace := !isFresh && t.now - lastValidTime <= cfg.validGraceSec;
      if !isFresh && !withinValidGrace {
        shown := Hold(t);
        return;
      }
      // reading the pointer of an unassigned receiver throws here
      if !t.bodySet { return None; }
      shown := TrackSample(t);
    }

    /** `MoveNow` on usable data: deadzone, presence, filter update and prediction. */
    method TrackSample(t: CursorTick) returns (shown: Option<Point>)
      modifies this
      ensures var o := Track(cfg, old(State()), t); State() == o.next && shown == o.shown
    {
      var p01 := Sample(cfg, t);
      if hasPrev && WithinThreshold(xHat, p01, cfg.movementThreshold) {
        wasPresent := true;
        lastSeenTime := t.now;
        Fade(true, t);
        return Some(xHat);
      }

      var dead := if wasPresent then cfg.hideDeadzone01 else cfg.showDeadzone01;
      var presentNow := CentreDistance(p01) > dead || (t.pinching && cfg.pinchCountsAsPresence);
      if !presentNow {
        shown := Hold(t);
        return;
      }

      wasPresent := true;
      lastSeenTime := t.now;
      Fade(true, t);

      if !hasPrev {
        xHat := p01;
        dxHat := Point(0.0, 0.0);
        hasPrev := true;
      } else {
        xHat := t.filtered.0;
        dxHat := t.filtered.1;
      }

      shown := Some(Predict(cfg, xHat, dxHat, t));
    }
  }
}
