/**
 * `HandLandmarkOverlay`: one dot per tracked landmark (or a single dot on
 * landmark 20 in index-tip mode), drawn from a pool that only grows. After
 * each frame exactly the first `count` dots are active, and dot `i` sits at
 * the landmark's normalised position mapped to the centred canvas.
 */
module LandmarkOverlay {
  import opened Common

  /** A pooled dot: its `activeSelf` flag and its anchored position. */
  class Dot {
    var active: bool
    var pos: Point

    constructor ()
      ensures active && pos == Point(0.0, 0.0)
    {
      active := true;
      pos := Point(0.0, 0.0);
    }
  }

  /** The landmark read for dot `i`. */
  const IndexTipLandmark := 20

  /** How many dots a frame with `landmarkCount` landmarks shows. */
  function DotCount(showOnlyIndexTip: bool, landmarkCount: nat): (r: nat)
    ensures showOnlyIndexTip ==> r == 1
    ensures !showOnlyIndexTip ==> r == landmarkCount
  {
    if showOnlyIndexTip then 1 else landmarkCount
  }

  /**
   * The position of a landmark on a `w` by `h` canvas centred on its pivot,
   * with x mirrored when asked.
   */
  function Place(lm: Point, mirrorX: bool, w: real, h: real): Point
  {
    var x := if mirrorX then 1.0 - lm.x else lm.x;
    Point((x - 0.5) * w, (lm.y - 0.5) * h)
  }

  /**
   * The dot positions of one frame, or `None` when index-tip mode reads a
   * landmark that is not there (fewer than 21 landmarks).
   */
  function Placements(landmarks: seq<Point>, showOnlyIndexTip: bool, mirrorX: bool, w: real, h: real)
    : (r: Option<seq<Point>>)
    ensures r.None? <==> showOnlyIndexTip && |landmarks| <= IndexTipLandmark
    ensures r.Some? ==> |r.value| == DotCount(showOnlyIndexTip, |landmarks|)
    ensures r.Some? && showOnlyIndexTip ==> r.value == [Place(landmarks[IndexTipLandmark], mirrorX, w, h)]
    ensures r.Some? && !showOnlyIndexTip ==>
      forall i :: 0 <= i < |landmarks| ==> r.value[i] == Place(landmarks[i], mirrorX, w, h)
  {
    if showOnlyIndexTip then
      if |landmarks| <= IndexTipLandmark then None
      else Some([Place(landmarks[IndexTipLandmark], mirrorX, w, h)])
    else Some(seq(|landmarks|, i requires 0 <= i < |landmarks| => Place(landmarks[i], mirrorX, w, h)))
  }

  /** Mirroring flips x about the canvas centre and leaves y. */
  lemma MirrorFlipsX(lm: Point, w: real, h: real)
    ensures Place(lm, true, w, h).x == -Place(lm, false, w, h).x
    ensures Place(lm, true, w, h).y == Place(lm, false, w, h).y
  {
    calc {
      Place(lm, true, w, h).x;
      ((1.0 - lm.x) - 0.5) * w;
      -((lm.x - 0.5) * w);
    }
  }

  /** A landmark inside [0,1]² lands inside the canvas rectangle centred on the pivot. */
  lemma PlaceStaysOnCanvas(lm: Point, mirrorX: bool, w: real, h: real)
    requires 0.0 <= lm.x <= 1.0 && 0.0 <= lm.y <= 1.0 && w >= 0.0 && h >= 0.0
    ensures var p := Place(lm, mirrorX, w, h);
      -w / 2.0 <= p.x <= w / 2.0 && -h / 2.0 <= p.y <= h / 2.0
  {
    var x := if mirrorX then 1.0 - lm.x else lm.x;
    HalfSpan(x, w);
    HalfSpan(lm.y, h);
    assert Place(lm, mirrorX, w, h) == Point((x - 0.5) * w, (lm.y - 0.5) * h);
  }

  lemma HalfSpan(f: real, extent: real)
    requires 0.0 <= f <= 1.0 && extent >= 0.0
    ensures -extent / 2.0 <= (f - 0.5) * extent <= extent / 2.0
  {
    ScaleWithin(f, extent);
    assert (f - 0.5) * extent == f * extent - extent / 2.0;
  }

  /** The pool size after `EnsurePoolSize(count)`: it never shrinks. */
  function GrownSize(size: nat, count: int): (r: nat)
    ensures r >= size && r >= count && (r == size || r == count)
  {
    if size < count then count else size
  }

  /** The pool size after a series of `EnsurePoolSize` calls. */
  function SizeAfter(size: nat, counts: seq<int>): nat
    decreases |counts|
  {
    if counts == [] then size else SizeAfter(GrownSize(size, counts[0]), counts[1..])
  }

  /** The pool ends as large as the largest request, or its first size if that is larger. */
  lemma {:induction false} SizeAfterIsLargestRequest(size: nat, counts: seq<int>)
    ensures SizeAfter(size, counts) >= size
    ensures forall k :: 0 <= k < |counts| ==> SizeAfter(size, counts) >= counts[k]
    ensures SizeAfter(size, counts) == size || exists k :: 0 <= k < |counts| && SizeAfter(size, counts) == counts[k]
    decreases |counts|
  {
    if counts != [] {
      var g := GrownSize(size, counts[0]);
      SizeAfterIsLargestRequest(g, counts[1..]);
      forall k | 0 <= k < |counts|
        ensures SizeAfter(size, counts) >= counts[k]
      {
        if k > 0 {
          assert counts[k] == counts[1..][k - 1];
        }
      }
      if SizeAfter(g, counts[1..]) != g {
        var k :| 0 <= k < |counts[1..]| && SizeAfter(g, counts[1..]) == counts[1..][k];
        assert counts[k + 1] == counts[1..][k];
      } else if g != size {
        assert SizeAfter(size, counts) == counts[0];
      }
    }
  }

  // ---------------------------------------------------------------------
  // The component, updating its pool in place
  // ---------------------------------------------------------------------

  class HandLandmarkOverlay {
    const showOnlyIndexTip: bool
    const mirrorX: bool
    var pool: seq<Dot>

    /** The pool holds each dot once. */
    ghost predicate Valid()
      reads this
    {
      Distinct(pool)
    }

    ghost function Dots(): set<Dot>
      reads this
    {
      set d | d in pool
    }

    constructor (showOnlyIndexTip: bool, mirrorX: bool)
      ensures this.showOnlyIndexTip == showOnlyIndexTip && this.mirrorX == mirrorX
      ensures pool == [] && Valid()
    {
      this.showOnlyIndexTip := showOnlyIndexTip;
      this.mirrorX := mirrorX;
      pool := [];
    }

    /**
     * `EnsurePoolSize(count)`: new dots are appended until the pool holds
     * `count`; then exactly the dots before index `count` are active.
     */
    method EnsurePoolSize(count: int)
      requires Valid()
      modifies this, Dots()
      ensures Valid()
      ensures |pool| == GrownSize(old(|pool|), count)
      ensures pool[..old(|pool|)] == old(pool)
      ensures forall i :: old(|pool|) <= i < |pool| ==> fresh(pool[i])
      ensures forall i :: 0 <= i < |pool| ==> pool[i].active == (i < count)
      ensures forall i :: 0 <= i < |pool| ==> pool[i].pos == old(if i < |pool| then pool[i].pos else Point(0.0, 0.0))
    {
      while |pool| < count
        invariant Distinct(pool)
        invariant |old(pool)| <= |pool| && pool[..old(|pool|)] == old(pool)
        invariant |pool| <= GrownSize(old(|pool|), count)
        invariant forall i :: old(|pool|) <= i < |pool| ==> fresh(pool[i]) && pool[i].pos == Point(0.0, 0.0)
        invariant forall d :: d in old(pool) ==> d.active == old(d.active) && d.pos == old(d.pos)
        decreases count - |pool|
      {
        var dot := new Dot();
        pool := pool + [dot];
      }
      ghost var grown := pool;
      var i := 0;
      while i < |pool|
        invariant 0 <= i <= |pool|
        invariant pool == grown && Distinct(pool)
        invariant forall j :: 0 <= j < i ==> pool[j].active == (j < count)
        invariant forall j :: 0 <= j < |pool| ==> pool[j].pos == old(if j < |pool| then pool[j].pos else Point(0.0, 0.0))
        invariant forall j :: old(|pool|) <= j < |pool| ==> fresh(pool[j])
      {
        assert i < old(|pool|) ==> pool[i] == old(pool)[i] && pool[i] in old(Dots());
        pool[i].active := i < count;
        i := i + 1;
      }
    }

    /**
     * `Update`: without valid data every dot is hidden; otherwise `count`
     * dots are shown and placed. Index-tip mode with fewer than 21 landmarks
     * stops with an out-of-range error (`failed`) after resizing the pool.
     */
    method Update(valid: bool, landmarks: seq<Point>, w: real, h: real) returns (failed: bool)
      requires Valid()
      modifies this, Dots()
      ensures Valid()
      ensures !valid ==> !failed && |pool| == old(|pool|) && forall i :: 0 <= i < |pool| ==> !pool[i].active
      ensures valid ==>
        var count := DotCount(showOnlyIndexTip, |landmarks|);
        && |pool| == GrownSize(old(|pool|), count)
        && (forall i :: 0 <= i < |pool| ==> pool[i].active == (i < count))
        && (failed <==> Placements(landmarks, showOnlyIndexTip, mirrorX, w, h).None?)
        && (!failed ==> forall i :: 0 <= i < count ==>
              pool[i].pos == Placements(landmarks, showOnlyIndexTip, mirrorX, w, h).value[i])
    {
      if !valid {
        EnsurePoolSize(0);
        return false;
      }
      var count := DotCount(showOnlyIndexTip, |landmarks|);
      EnsurePoolSize(count);
      if showOnlyIndexTip && |landmarks| <= IndexTipLandmark {
        return true;
      }
      ghost var placed := Placements(landmarks, showOnlyIndexTip, mirrorX, w, h).value;
      ghost var grown := pool;
      var i := 0;
      while i < count
        invariant 0 <= i <= count <= |pool|
        invariant pool == grown && Valid()
        invariant forall d :: d in pool ==> d in old(Dots()) || fresh(d)
        invariant forall j :: 0 <= j < |pool| ==> pool[j].active == (j < count)
        invariant forall j :: 0 <= j < i ==> pool[j].pos == placed[j]
        invariant |pool| == GrownSize(old(|pool|), count)
      {
        var lm := landmarks[if showOnlyIndexTip then IndexTipLandmark else i];
        assert pool[i] in pool;
        pool[i].pos := Place(lm, mirrorX, w, h);
        i := i + 1;
      }
      failed := false;
    }
  }
}
