/**
  The fog of war over the map and the animation that clears it. The fog is
  kept as the list of discs punched into it (centre and integer radius, as
  handed to pygame.gfxdraw.filled_circle), not as pixels: a pixel is clear
  once some punched disc contains it, and discs are never taken back.
*/
module Fog {
  import opened Arith

  datatype Disc = Disc(x: int, y: int, r: int)

  /** The length of a reveal animation in milliseconds (RevealAnimation's default). */
  const RevealDuration: int := 399

  ghost predicate InDisc(d: Disc, px: int, py: int) {
    d.r >= 0 && (px - d.x) * (px - d.x) + (py - d.y) * (py - d.y) <= d.r * d.r
  }

  /** A pixel some disc of the list clears. */
  ghost predicate ClearedBy(holes: seq<Disc>, px: int, py: int) {
    exists i :: 0 <= i < |holes| && InDisc(holes[i], px, py)
  }

  /** Fog opacity never increases: punching more discs keeps every clear pixel clear. */
  lemma {:induction false} ClearedStaysCleared(holes: seq<Disc>, more: seq<Disc>, px: int, py: int)
    requires ClearedBy(holes, px, py)
    ensures ClearedBy(holes + more, px, py)
  {
    var i :| 0 <= i < |holes| && InDisc(holes[i], px, py);
    assert (holes + more)[i] == holes[i];
  }

  /** A disc with the same centre and a radius at least as large contains the smaller one. */
  lemma LargerDiscCovers(d: Disc, e: Disc, px: int, py: int)
    requires d.x == e.x && d.y == e.y && 0 <= d.r <= e.r
    requires InDisc(d, px, py)
    ensures InDisc(e, px, py)
  {
    assert d.r * d.r <= d.r * e.r <= e.r * e.r;
  }

  /** The fog surface, seen through the discs punched into it. */
  class FogMask {
    var holes: seq<Disc>

    constructor ()
      ensures holes == []
    {
      holes := [];
    }

    /** filled_circle (and the aacircle over its rim) with a transparent colour. */
    method Punch(d: Disc)
      modifies this
      ensures holes == old(holes) + [d]
    {
      holes := holes + [d];
    }
  }

  /** Cubic ease-out: 1 - (1 - t)^3. */
  function Eased(t: real): real {
    1.0 - (1.0 - t) * (1.0 - t) * (1.0 - t)
  }

  lemma CubeMonotone(u: real, v: real)
    requires 0.0 <= u <= v
    ensures u * u * u <= v * v * v
  {
    assert u * u <= u * v <= v * v;
    assert u * u * u <= v * v * u <= v * v * v;
  }

  /** On [0, 1] the easing stays in [0, 1], is 1 only at the end and never decreases. */
  lemma EasedRange(t: real)
    requires 0.0 <= t <= 1.0
    ensures 0.0 <= Eased(t) <= 1.0
    ensures t < 1.0 ==> Eased(t) < 1.0
  {
    var u := 1.0 - t;
    CubeMonotone(0.0, u);
    CubeMonotone(u, 1.0);
    assert Eased(t) == 1.0 - u * u * u;
    if t < 1.0 {
      assert u > 0.0;
      assert u * u > 0.0;
      assert u * u * u > 0.0;
    }
  }

  lemma EasedMonotone(a: real, b: real)
    requires 0.0 <= a <= b <= 1.0
    ensures Eased(a) <= Eased(b)
  {
    CubeMonotone(1.0 - b, 1.0 - a);
  }

  /** elapsed / duration, the fraction of the animation gone by. */
  function Progress(elapsed: int, duration: int): real
    requires duration > 0
  {
    elapsed as real / duration as real
  }

  /** int(final_radius * eased_t): the radius punched at a given progress. */
  function EasedRadius(finalRadius: real, t: real): int {
    Trunc(finalRadius * Eased(t))
  }

  /** The radius a tick elapsed milliseconds into the animation punches. */
  function GrowingRadius(finalRadius: real, elapsed: int, duration: int): int
    requires duration > 0
  {
    EasedRadius(finalRadius, Progress(elapsed, duration))
  }

  lemma ScaleMonotone(f: real, a: real, b: real)
    requires f >= 0.0 && a <= b
    ensures f * a <= f * b
  {
  }

  lemma ScaleBelow(f: real, e: real)
    requires f >= 0.0 && 0.0 <= e <= 1.0
    ensures 0.0 <= f * e <= f
  {
  }

  /** Before the end, the radius punched lies between 0 and the final radius (truncated). */
  lemma {:induction false} GrowingRadiusBounded(finalRadius: real, elapsed: int, duration: int)
    requires duration > 0 && finalRadius >= 0.0 && 0 <= elapsed < duration
    ensures 0 <= GrowingRadius(finalRadius, elapsed, duration) <= Trunc(finalRadius)
    ensures GrowingRadius(finalRadius, elapsed, duration) as real <= finalRadius
  {
    var t := Progress(elapsed, duration);
    assert 0.0 <= t < 1.0;
    EasedRange(t);
    ScaleBelow(finalRadius, Eased(t));
    TruncMonotone(finalRadius * Eased(t), finalRadius);
  }

  /** Progress grows with elapsed time and stays within [0, 1] up to the end. */
  lemma ProgressMonotone(e1: int, e2: int, duration: int)
    requires duration > 0 && 0 <= e1 <= e2 <= duration
    ensures 0.0 <= Progress(e1, duration) <= Progress(e2, duration) <= 1.0
  {
    var d := duration as real;
    assert e1 as real / d * d == e1 as real && e2 as real / d * d == e2 as real;
  }

  /** The radius depends on elapsed time only and grows with it: the tick rate does not matter. */
  lemma {:induction false} GrowingRadiusMonotone(finalRadius: real, e1: int, e2: int, duration: int)
    requires duration > 0 && finalRadius >= 0.0 && 0 <= e1 <= e2 <= duration
    ensures GrowingRadius(finalRadius, e1, duration) <= GrowingRadius(finalRadius, e2, duration)
  {
    ProgressMonotone(e1, e2, duration);
    EasedRadiusMonotone(finalRadius, Progress(e1, duration), Progress(e2, duration));
  }

  /** The radius grows with the progress of the animation. */
  lemma EasedRadiusMonotone(f: real, t1: real, t2: real)
    requires f >= 0.0 && 0.0 <= t1 <= t2 <= 1.0
    ensures EasedRadius(f, t1) <= EasedRadius(f, t2)
  {
    EasedMonotone(t1, t2);
    var a, b := Eased(t1), Eased(t2);
    TruncScaleMonotone(f, a, b);
    assert EasedRadius(f, t1) == Trunc(f * a);
    assert EasedRadius(f, t2) == Trunc(f * b);
  }

  lemma TruncScaleMonotone(f: real, a: real, b: real)
    requires f >= 0.0 && a <= b
    ensures Trunc(f * a) <= Trunc(f * b)
  {
    ScaleMonotone(f, a, b);
    TruncMonotone(f * a, f * b);
  }

  class RevealAnimation {
    const fog: FogMask
    /** int(map_pos.x), int(map_pos.y): the centre of the hole. */
    const cx: int
    const cy: int
    const finalRadius: real
    const duration: int
    /** pygame.time.get_ticks() when the animation was created. */
    const start: int
    var finished: bool

    constructor (fog: FogMask, cx: int, cy: int, finalRadius: real, now: int)
      ensures this.fog == fog && this.cx == cx && this.cy == cy
      ensures this.finalRadius == finalRadius && start == now
      ensures duration == RevealDuration && !finished
    {
      this.fog, this.cx, this.cy := fog, cx, cy;
      this.finalRadius, this.start := finalRadius, now;
      duration := RevealDuration;
      finished := false;
    }

    /**
      The disc a tick at time now punches: the exact final radius once the
      duration has elapsed, the eased radius before.
    */
    function DiscAt(now: int): (d: Disc)
      requires duration > 0
      ensures d.x == cx && d.y == cy
      ensures now - start >= duration ==> d.r == Trunc(finalRadius)
      ensures now - start < duration ==> d.r == GrowingRadius(finalRadius, now - start, duration)
    {
      var elapsed := now - start;
      if elapsed >= duration then Disc(cx, cy, Trunc(finalRadius))
      else Disc(cx, cy, GrowingRadius(finalRadius, elapsed, duration))
    }

    /**
      RevealAnimation.update: nothing (and false) once finished; otherwise one
      disc punched, and finished exactly when the duration has elapsed.
    */
    method Update(now: int) returns (active: bool)
      requires duration > 0
      modifies this`finished, fog
      ensures old(finished) ==> !active && finished && fog.holes == old(fog.holes)
      ensures !old(finished) ==> active && fog.holes == old(fog.holes) + [DiscAt(now)]
      ensures !old(finished) ==> finished == (now - start >= duration)
    {
      if finished {
        return false;
      }
      var elapsed := now - start;
      if elapsed >= duration {
        fog.Punch(Disc(cx, cy, Trunc(finalRadius)));
        finished := true;
        return true;
      } else {
        fog.Punch(Disc(cx, cy, GrowingRadius(finalRadius, elapsed, duration)));
        return true;
      }
    }
  }

  /** Every disc an animation punches is at most its final radius, and exactly that at the end. */
  lemma {:induction false} DiscAtBounded(a: RevealAnimation, now: int)
    requires a.duration > 0 && a.finalRadius >= 0.0 && a.start <= now
    ensures 0 <= a.DiscAt(now).r <= Trunc(a.finalRadius)
    ensures a.DiscAt(now).r as real <= a.finalRadius
    ensures now - a.start >= a.duration ==> a.DiscAt(now).r == Trunc(a.finalRadius)
  {
    if now - a.start < a.duration {
      GrowingRadiusBounded(a.finalRadius, now - a.start, a.duration);
    }
  }

  /**
    A later tick punches a disc at least as large as an earlier one, and the
    terminal disc contains every disc that came before it.
  */
  lemma {:induction false} LaterDiscCovers(a: RevealAnimation, now1: int, now2: int, px: int, py: int)
    requires a.duration > 0 && a.finalRadius >= 0.0 && a.start <= now1 <= now2
    requires InDisc(a.DiscAt(now1), px, py)
    ensures InDisc(a.DiscAt(now2), px, py)
  {
    var e1, e2 := now1 - a.start, now2 - a.start;
    if e2 < a.duration {
      GrowingRadiusMonotone(a.finalRadius, e1, e2, a.duration);
    } else {
      DiscAtBounded(a, now1);
    }
    LargerDiscCovers(a.DiscAt(now1), a.DiscAt(now2), px, py);
  }
}
