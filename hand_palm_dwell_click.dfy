/**
 * `HandPalmDwellClick`: clicks the UI button under the hand pointer once an
 * open palm has rested on it, moving slowly enough, for `dwellSeconds`.
 *
 * Buttons carry an `id` standing for object identity (the source compares
 * `Button` references). `PalmState` is the snapshot of the runtime fields,
 * `Step` one frame of `Update`; the class keeps the same fields.
 */
module PalmDwellClick {
  import opened Common

  datatype PalmConfig = PalmConfig(
    hasRing: bool,          // a progress ring Image is assigned
    dwellSeconds: real,
    maxPointerSpeed: real,  // pixels per second
    requirePalm: bool)

  /** A button found under the click root, as `FindHoveredButton` sees it. */
  datatype Button = Button(
    id: nat,
    alive: bool,            // the reference is not destroyed
    activeInHierarchy: bool,
    interactable: bool,
    rect: Rect)             // its screen-space rectangle

  /** One frame: the receiver's sample, the screen size, the delta time and the buttons in hierarchy order. */
  datatype PalmTick = PalmTick(
    dataValid: bool,        // body set and IsDataValid
    pointer01: Point,
    pinching: bool,
    fist: bool,
    screenWidth: real,
    screenHeight: real,
    dt: real,
    buttons: seq<Button>)

  datatype PalmState = PalmState(hovered: Option<nat>, dwell: real, lastScreen: Point, ringFill: real)

  datatype PalmOutcome = PalmOutcome(next: PalmState, clicked: Option<nat>)

  /** A button `FindHoveredButton` accepts for the point. */
  predicate Hit(b: Button, p: Point)
  {
    b.alive && b.activeInHierarchy && b.interactable && Contains(b.rect, p)
  }

  /** The first button accepted for the point, in hierarchy order. */
  function FirstHit(buttons: seq<Button>, p: Point): (r: Option<Button>)
    ensures r.None? <==> forall i :: 0 <= i < |buttons| ==> !Hit(buttons[i], p)
    ensures r.Some? ==> exists i :: (0 <= i < |buttons| && buttons[i] == r.value && Hit(r.value, p)
                                      && forall j :: 0 <= j < i ==> !Hit(buttons[j], p))
    decreases |buttons|
  {
    if buttons == [] then None
    else if Hit(buttons[0], p) then Some(buttons[0])
    else
      var r := FirstHit(buttons[1..], p);
      assert forall i :: 1 <= i < |buttons| ==> buttons[i] == buttons[1..][i - 1];
      r
  }

  /** `FindHoveredButton`: scans the buttons and returns the first one accepted, or null. */
  method FindHoveredButton(buttons: seq<Button>, p: Point) returns (r: Option<Button>)
    ensures r == FirstHit(buttons, p)
    ensures r.Some? ==> r.value in buttons && Hit(r.value, p)
    ensures r.None? ==> forall b :: b in buttons ==> !Hit(b, p)
  {
    var i := 0;
    while i < |buttons|
      invariant 0 <= i <= |buttons|
      invariant FirstHit(buttons, p) == FirstHit(buttons[i..], p)
    {
      var b := buttons[i];
      assert buttons[i..][1..] == buttons[i + 1..];
      if Hit(b, p) {
        return Some(b);
      }
      i := i + 1;
    }
    return None;
  }

  /** `IsPalm`: neither pinching nor a fist. */
  predicate IsPalm(t: PalmTick)
  {
    !t.pinching && !t.fist
  }

  /**
   * The movement guard `speed <= maxPointerSpeed`, with speed the distance
   * moved over `dt` (0 when `dt <= 0`). The distance is compared squared:
   * for `dt > 0`, `|d| / dt <= max` holds exactly when `max * dt` is
   * non-negative and `|d|^2 <= (max * dt)^2`.
   */
  predicate Stable(cfg: PalmConfig, moved: Point, dt: real)
  {
    if dt > 0.0 then
      var budget := cfg.maxPointerSpeed * dt;
      budget >= 0.0 && moved.x * moved.x + moved.y * moved.y <= budget * budget
    else 0.0 <= cfg.maxPointerSpeed
  }

  /** The pointer in screen pixels (not clamped or mirrored here). */
  function ScreenOf(t: PalmTick): Point
  {
    Point(t.pointer01.x * t.screenWidth, t.pointer01.y * t.screenHeight)
  }

  function HitId(t: PalmTick): Option<nat>
  {
    var hit := FirstHit(t.buttons, ScreenOf(t));
    if hit.Some? then Some(hit.value.id) else None
  }

  /** Dwell may grow this frame: a button is hovered, the palm rule holds and the pointer is slow. */
  predicate Accrues(cfg: PalmConfig, s: PalmState, t: PalmTick)
  {
    var sp := ScreenOf(t);
    HitId(t).Some? && (!cfg.requirePalm || IsPalm(t))
    && Stable(cfg, Point(sp.x - s.lastScreen.x, sp.y - s.lastScreen.y), t.dt)
  }

  function SetRing(cfg: PalmConfig, s: PalmState, fill: real): PalmState
  {
    if cfg.hasRing then s.(ringFill := fill) else s
  }

  /** One frame of `Update`. */
  function Step(cfg: PalmConfig, s: PalmState, t: PalmTick): PalmOutcome
  {
    if !t.dataValid then PalmOutcome(s, None)
    else
      var hit := HitId(t);
      var s1 := s.(lastScreen := ScreenOf(t));
      var s2 := if hit != s.hovered then SetRing(cfg, s1.(hovered := hit, dwell := 0.0), 0.0) else s1;
      if Accrues(cfg, s, t) then
        var d := s2.dwell + t.dt;
        var s3 := SetRing(cfg, s2.(dwell := d), Fill(d, cfg.dwellSeconds));
        if d >= cfg.dwellSeconds then PalmOutcome(SetRing(cfg, s3.(dwell := 0.0), 0.0), hit)
        else PalmOutcome(s3, None)
      else PalmOutcome(SetRing(cfg, s2.(dwell := 0.0), 0.0), None)
  }

  /** Frames in a row; the second component counts the clicks. */
  function Run(cfg: PalmConfig, s: PalmState, ticks: seq<PalmTick>): (PalmState, nat)
    decreases |ticks|
  {
    if ticks == [] then (s, 0)
    else
      var o := Step(cfg, s, ticks[0]);
      var rest := Run(cfg, o.next, ticks[1..]);
      (rest.0, rest.1 + (if o.clicked.Some? then 1 else 0))
  }

  function SumDt(ticks: seq<PalmTick>): real
    decreases |ticks|
  {
    if ticks == [] then 0.0 else ticks[0].dt + SumDt(ticks[1..])
  }

  // ---------------------------------------------------------------------
  // Properties of one frame
  // ---------------------------------------------------------------------

  /** Invalid data leaves every field as it was and clicks nothing. */
  lemma InvalidFrameChangesNothing(cfg: PalmConfig, s: PalmState, t: PalmTick)
    requires !t.dataValid
    ensures Step(cfg, s, t) == PalmOutcome(s, None)
  {
  }

  /** A valid frame hovers the first accepted button and records the pointer. */
  lemma ValidFrameTracksPointer(cfg: PalmConfig, s: PalmState, t: PalmTick)
    requires t.dataValid
    ensures var n := Step(cfg, s, t).next;
      && n.lastScreen == ScreenOf(t)
      && (n.hovered.None? <==> forall i :: 0 <= i < |t.buttons| ==> !Hit(t.buttons[i], ScreenOf(t)))
      && (n.hovered.Some? ==> exists i :: 0 <= i < |t.buttons| && t.buttons[i].id == n.hovered.value
                                && Hit(t.buttons[i], ScreenOf(t)))
  {
  }

  /**
   * The dwell restarts from zero when the hovered button changes, grows by
   * `dt` only while accruing, clicks exactly when it reaches `dwellSeconds`
   * and is zero after a click or a frame that does not accrue.
   */
  lemma DwellAccounting(cfg: PalmConfig, s: PalmState, t: PalmTick)
    requires t.dataValid
    ensures var o := Step(cfg, s, t);
      var base := if HitId(t) != s.hovered then 0.0 else s.dwell;
      && (!Accrues(cfg, s, t) ==> o.next.dwell == 0.0 && o.clicked.None?)
      && (Accrues(cfg, s, t) ==>
            && (o.clicked.Some? <==> base + t.dt >= cfg.dwellSeconds)
            && o.next.dwell == (if base + t.dt >= cfg.dwellSeconds then 0.0 else base + t.dt))
  {
  }

  /** A click goes to the button hovered this frame, and only to it. */
  lemma ClickGoesToHovered(cfg: PalmConfig, s: PalmState, t: PalmTick)
    requires Step(cfg, s, t).clicked.Some?
    ensures var o := Step(cfg, s, t);
      && o.clicked == o.next.hovered
      && exists i :: 0 <= i < |t.buttons| && t.buttons[i].id == o.clicked.value && Hit(t.buttons[i], ScreenOf(t))
  {
  }

  /** The ring shows a fill in [0, 1], and 0 whenever the dwell was reset. */
  lemma RingFillInRange(cfg: PalmConfig, s: PalmState, t: PalmTick)
    requires cfg.hasRing && t.dataValid
    ensures var n := Step(cfg, s, t).next;
      && 0.0 <= n.ringFill <= 1.0
      && (n.dwell == 0.0 ==> n.ringFill == 0.0)
  {
  }

  /** Without elapsed time, the speed is 0 and the guard passes for any non-negative limit. */
  lemma NoTimeIsStable(cfg: PalmConfig, moved: Point, dt: real)
    requires dt <= 0.0 && cfg.maxPointerSpeed >= 0.0
    ensures Stable(cfg, moved, dt)
  {
  }

  /** A pointer that did not move is always slow enough for a non-negative limit. */
  lemma StillIsStable(cfg: PalmConfig, dt: real)
    requires cfg.maxPointerSpeed >= 0.0
    ensures Stable(cfg, Point(0.0, 0.0), dt)
  {
    if dt > 0.0 {
      assert cfg.maxPointerSpeed * dt >= 0.0;
    }
  }

  // ---------------------------------------------------------------------
  // Properties of several frames
  // ---------------------------------------------------------------------

  /** One frame raises the dwell by at most `dt` (a reset only lowers it). */
  lemma DwellGrowsAtMostDt(cfg: PalmConfig, s: PalmState, t: PalmTick)
    requires s.dwell >= 0.0 && t.dt >= 0.0
    ensures 0.0 <= Step(cfg, s, t).next.dwell <= s.dwell + t.dt
  {
  }

  /** No click can happen before `dwellSeconds` of frame time has passed since the dwell was `s.dwell`. */
  lemma {:induction false} NoClickBeforeDwellSeconds(cfg: PalmConfig, s: PalmState, ticks: seq<PalmTick>)
    requires s.dwell >= 0.0
    requires forall i :: 0 <= i < |ticks| ==> ticks[i].dt >= 0.0
    requires s.dwell + SumDt(ticks) < cfg.dwellSeconds
    ensures Run(cfg, s, ticks).1 == 0
    decreases |ticks|
  {
    if ticks != [] {
      var o := Step(cfg, s, ticks[0]);
      DwellGrowsAtMostDt(cfg, s, ticks[0]);
      assert o.next.dwell <= s.dwell + ticks[0].dt;
      assert o.clicked.None? by {
        if ticks[0].dataValid { DwellAccounting(cfg, s, ticks[0]); }
        assert SumDt(ticks[1..]) >= 0.0 by { SumDtNonNegative(ticks[1..]); }
      }
      NoClickBeforeDwellSeconds(cfg, o.next, ticks[1..]);
    }
  }

  lemma {:induction false} SumDtNonNegative(ticks: seq<PalmTick>)
    requires forall i :: 0 <= i < |ticks| ==> ticks[i].dt >= 0.0
    ensures SumDt(ticks) >= 0.0
    decreases |ticks|
  {
    if ticks != [] {
      SumDtNonNegative(ticks[1..]);
    }
  }

  // ---------------------------------------------------------------------
  // The component, updating its fields in place
  // ---------------------------------------------------------------------

  class HandPalmDwellClick {
    const cfg: PalmConfig
    var hovered: Option<nat>
    var dwell: real
    var lastScreen: Point
    var ringFill: real

    function State(): PalmState
      reads this
    {
      PalmState(hovered, dwell, lastScreen, ringFill)
    }

    /** Fields at their defaults; `Start` only empties the ring. */
    constructor (cfg: PalmConfig)
      ensures this.cfg == cfg && State() == PalmState(None, 0.0, Point(0.0, 0.0), 0.0)
    {
      this.cfg := cfg;
      hovered, dwell, lastScreen, ringFill := None, 0.0, Point(0.0, 0.0), 0.0;
    }

    method SetRingFill(fill: real)
      modifies this
      ensures State() == SetRing(cfg, old(State()), fill)
    {
      if cfg.hasRing { ringFill := fill; }
    }

    method Update(t: PalmTick) returns (clicked: Option<nat>)
      modifies this
      ensures var o := Step(cfg, old(State()), t); State() == o.next && clicked == o.clicked
    {
      clicked := None;
      if !t.dataValid { return; }

      var sp := ScreenOf(t);
      var moved := Point(sp.x - lastScreen.x, sp.y - lastScreen.y);
      var stable := Stable(cfg, moved, t.dt);
      lastScreen := sp;

      var hit := FindHoveredButton(t.buttons, sp);
      var hitId := if hit.Some? then Some(hit.value.id) else None;
      if hitId != hovered {
        hovered := hitId;
        dwell := 0.0;
        SetRingFill(0.0);
      }

      var palmOk := !cfg.requirePalm || IsPalm(t);
      if hovered.Some? && palmOk && stable {
        dwell := dwell + t.dt;
        SetRingFill(Fill(dwell, cfg.dwellSeconds));
        if dwell >= cfg.dwellSeconds {
          clicked := hovered;
          dwell := 0.0;
          SetRingFill(0.0);
        }
      } else {
        dwell := 0.0;
        SetRingFill(0.0);
      }
    }
  }
}
