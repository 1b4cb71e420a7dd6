/**
  The points of interest and the rules that decide which of them the fog
  uncovers next: the cyclic search of trigger_sequential_reveal, the reveal
  radius it picks, and the square test of reveal_pois_in_area.
*/
module Pois {
  import opened Arith
  import opened Wrappers

  /** A map position. The dataset's positions are integers (Vector2 over int pairs). */
  datatype Point = Point(x: int, y: int)

  /**
    The logical state of one POI sprite. Icons, fill colour, screen rect and
    jitter magnitude are presentation and are not kept.
  */
  datatype Poi = Poi(index: nat, pos: Point, description: string,
                     visible: bool, completed: bool, shaking: bool, shakeStart: int)

  /** One entry of PONTOS_TURISTICOS_DATA as far as the logic uses it. */
  datatype PoiData = PoiData(pos: Point, description: string)

  /** shake_duration, in milliseconds. */
  const ShakeDuration: int := 700
  /** Added to the distance to the next POI, so that it ends up well inside the cleared area. */
  const RevealMargin: real := 150.0
  /** The radius cleared when every POI is already completed. */
  const FallbackRadius: real := 800.0

  /** POI.__init__ inside _setup_pois: hidden, not completed, not shaking; only the first one visible. */
  function InitialPoi(data: PoiData, i: nat): (p: Poi)
    ensures p.index == i && p.pos == data.pos && p.description == data.description
    ensures p.visible <==> i == 0
    ensures !p.completed && !p.shaking
  {
    Poi(i, data.pos, data.description, i == 0, false, false, 0)
  }

  /** start_shake_animation: only a POI that is neither shaking nor completed starts, with its clock set to now. */
  function StartShake(p: Poi, now: int): (q: Poi)
    ensures q.index == p.index && q.pos == p.pos && q.description == p.description
    ensures q.visible == p.visible && q.completed == p.completed
    ensures !p.shaking && !p.completed ==> q.shaking && q.shakeStart == now
    ensures p.shaking || p.completed ==> q == p
  {
    if !p.shaking && !p.completed then p.(shaking := true, shakeStart := now) else p
  }

  /**
    The shake of POI.update is over: it ran for at least ShakeDuration. Only
    a shaking POI's shake can be over, and not before 700 ms.
  */
  predicate ShakeOver(p: Poi, now: int): (r: bool)
    ensures r ==> p.shaking && now >= p.shakeStart + 700
  {
    p.shaking && now - p.shakeStart >= ShakeDuration
  }

  /** A shake that is over at some time is over at every later time. */
  lemma ShakeOverStays(p: Poi, now: int, later: int)
    requires ShakeOver(p, now) && now <= later
    ensures ShakeOver(p, later)
  {
  }

  /** The state change of POI.update: a shake that is over turns into completion. */
  function Tick(p: Poi, now: int): (q: Poi)
    ensures q.index == p.index && q.pos == p.pos && q.description == p.description
    ensures q.visible == p.visible && q.shakeStart == p.shakeStart
    ensures q.completed <==> p.completed || ShakeOver(p, now)
    ensures q.shaking <==> p.shaking && !ShakeOver(p, now)
  {
    if ShakeOver(p, now) then p.(shaking := false, completed := true) else p
  }

  /** A POI once shaken is completed by the first tick at least ShakeDuration later, and stays completed. */
  lemma ShakeCompletes(p: Poi, start: int, now: int)
    requires !p.shaking && !p.completed && now - start >= ShakeDuration
    ensures Tick(StartShake(p, start), now).completed
    ensures !Tick(StartShake(p, start), now).shaking
    ensures StartShake(Tick(StartShake(p, start), now), now) == Tick(StartShake(p, start), now)
  {
  }

  /** The i-th index trigger_sequential_reveal inspects after completed_index. */
  function ScanIndex(after: nat, i: nat, n: nat): (k: nat)
    requires n > 0
    ensures k < n
  {
    (after + 1 + i) % n
  }

  /** Every index is inspected by one of the n steps of the scan. */
  lemma ScanCovers(after: nat, k: nat, n: nat) returns (i: nat)
    requires k < n
    ensures i < n && ScanIndex(after, i, n) == k
  {
    var a, m := (after + 1) % n, (after + 1) / n;
    if k >= a {
      i := k - a;
      ModUnique(after + 1 + i, m, k, n);
    } else {
      i := k - a + n;
      assert after + 1 + i == (m + 1) * n + k;
      ModUnique(after + 1 + i, m + 1, k, n);
    }
  }

  /** The scan from step i onwards. */
  function ScanFrom(ps: seq<Poi>, after: nat, i: nat): (r: Option<nat>)
    requires |ps| > 0
    ensures r.Some? ==> r.value < |ps| && !ps[r.value].completed
    decreases |ps| - i
  {
    if i >= |ps| then None
    else
      var k := ScanIndex(after, i, |ps|);
      if !ps[k].completed then Some(k) else ScanFrom(ps, after, i + 1)
  }

  /** The POI trigger_sequential_reveal aims for: the first one after `after`, cyclically, that is not completed. */
  function NextToReveal(ps: seq<Poi>, after: nat): (r: Option<nat>)
    ensures r.Some? ==> r.value < |ps| && !ps[r.value].completed
  {
    if |ps| == 0 then None else ScanFrom(ps, after, 0)
  }

  /** The scan from step i when the steps before it all met completed POIs. */
  lemma {:induction false} ScanFromFinds(ps: seq<Poi>, after: nat, i: nat)
    requires |ps| > 0
    ensures ScanFrom(ps, after, i).Some? ==>
      exists s :: i <= s < |ps| && ScanIndex(after, s, |ps|) == ScanFrom(ps, after, i).value &&
        !ps[ScanFrom(ps, after, i).value].completed &&
        forall j :: i <= j < s ==> ps[ScanIndex(after, j, |ps|)].completed
    ensures ScanFrom(ps, after, i).None? ==>
      forall j :: i <= j < |ps| ==> ps[ScanIndex(after, j, |ps|)].completed
    decreases |ps| - i
  {
    if i < |ps| && ps[ScanIndex(after, i, |ps|)].completed {
      ScanFromFinds(ps, after, i + 1);
      if ScanFrom(ps, after, i).Some? {
        var s :| i + 1 <= s < |ps| && ScanIndex(after, s, |ps|) == ScanFrom(ps, after, i).value &&
          !ps[ScanFrom(ps, after, i).value].completed &&
          forall j :: i + 1 <= j < s ==> ps[ScanIndex(after, j, |ps|)].completed;
        assert forall j :: i <= j < s ==> ps[ScanIndex(after, j, |ps|)].completed;
      }
    }
  }

  /**
    The search of trigger_sequential_reveal: it finds a POI exactly when some
    POI is not completed, and then the first one in the cyclic order after
    `after`.
  */
  lemma NextToRevealSpec(ps: seq<Poi>, after: nat)
    ensures NextToReveal(ps, after).None? <==> forall k :: 0 <= k < |ps| ==> ps[k].completed
    ensures NextToReveal(ps, after).Some? ==>
      var k := NextToReveal(ps, after).value;
      k < |ps| && !ps[k].completed &&
      exists s :: 0 <= s < |ps| && ScanIndex(after, s, |ps|) == k &&
        forall j :: 0 <= j < s ==> ps[ScanIndex(after, j, |ps|)].completed
  {
    if |ps| > 0 {
      ScanFromFinds(ps, after, 0);
      if NextToReveal(ps, after).None? {
        forall k | 0 <= k < |ps|
          ensures ps[k].completed
        {
          var s := ScanCovers(after, k, |ps|);
        }
      }
    }
  }

  /** Only the completion flags and the count steer the search. */
  lemma {:induction false} ScanFromFrame(ps: seq<Poi>, qs: seq<Poi>, after: nat, i: nat)
    requires |ps| == |qs| > 0
    requires forall k :: 0 <= k < |ps| ==> ps[k].completed == qs[k].completed
    ensures ScanFrom(ps, after, i) == ScanFrom(qs, after, i)
    decreases |ps| - i
  {
    if i < |ps| {
      ScanFromFrame(ps, qs, after, i + 1);
    }
  }

  lemma NextToRevealFrame(ps: seq<Poi>, qs: seq<Poi>, after: nat)
    requires |ps| == |qs|
    requires forall k :: 0 <= k < |ps| ==> ps[k].completed == qs[k].completed
    ensures NextToReveal(ps, after) == NextToReveal(qs, after)
  {
    if |ps| > 0 {
      ScanFromFrame(ps, qs, after, 0);
    }
  }

  /**
    reveal_radius: the distance from the completed POI to the next one plus
    RevealMargin, or FallbackRadius when there is no next one.
  */
  function RevealRadius(ps: seq<Poi>, after: nat, from: Point, dist: (Point, Point) -> real): (r: real)
    ensures NextToReveal(ps, after).None? ==> r == FallbackRadius
    ensures DominatesAxes(dist) ==> r >= RevealMargin
  {
    match NextToReveal(ps, after)
    case Some(k) => dist(from, ps[k].pos) + RevealMargin
    case None => FallbackRadius
  }

  /** Two snapshots of the POI list that differ at most in visibility, which only ever turns on. */
  ghost predicate OnlyMoreVisible(before: seq<Poi>, after: seq<Poi>) {
    |before| == |after| &&
    forall k :: 0 <= k < |before| ==>
      after[k] == before[k].(visible := after[k].visible) && (before[k].visible ==> after[k].visible)
  }

  /** Uncovering POIs does not change which POI is next or how far the reveal reaches. */
  lemma RevealRadiusFrame(ps: seq<Poi>, qs: seq<Poi>, after: nat, from: Point, dist: (Point, Point) -> real)
    requires OnlyMoreVisible(ps, qs)
    ensures NextToReveal(qs, after) == NextToReveal(ps, after)
    ensures RevealRadius(qs, after, from, dist) == RevealRadius(ps, after, from, dist)
  {
    assert forall k :: 0 <= k < |ps| ==> ps[k].completed == qs[k].completed && ps[k].pos == qs[k].pos;
    NextToRevealFrame(ps, qs, after);
  }

  /** Euclidean distance is at least the difference along either axis. */
  ghost predicate DominatesAxes(dist: (Point, Point) -> real) {
    forall p: Point, q: Point {:trigger dist(p, q)} ::
      dist(p, q) >= Abs(p.x - q.x) as real && dist(p, q) >= Abs(p.y - q.y) as real
  }

  /**
    reveal_rect.collidepoint(p) for Rect(cx - radius, cy - radius, radius * 2,
    radius * 2): each float is truncated as the Rect stores it, and the right
    and bottom edges are excluded, so the square is empty below radius 0.5.
  */
  predicate InRevealRect(cx: int, cy: int, radius: real, p: Point): (r: bool)
    ensures r ==> radius >= 0.5
  {
    var left, top, size := Trunc(cx as real - radius), Trunc(cy as real - radius), Trunc(radius * 2.0);
    left <= p.x < left + size && top <= p.y < top + size
  }

  /** With an integer radius the square is exactly [c - r, c + r) on both axes. */
  lemma RevealRectIntegral(cx: int, cy: int, r: nat, p: Point)
    ensures InRevealRect(cx, cy, r as real, p) <==>
      cx - r <= p.x < cx + r && cy - r <= p.y < cy + r
  {
    TruncOfInt(cx - r);
    TruncOfInt(cy - r);
    TruncOfInt(2 * r);
  }

  /** Whatever the square uncovers lies within radius + 1 of the centre on both axes. */
  lemma RevealRectNear(cx: int, cy: int, radius: real, p: Point)
    requires radius >= 0.0 && InRevealRect(cx, cy, radius, p)
    ensures (Abs(p.x - cx) as real) < radius + 1.0 && (Abs(p.y - cy) as real) < radius + 1.0
  {
  }

  /** A point no farther than d on either axis is inside the square of radius d + RevealMargin. */
  lemma RevealRectReaches(c: Point, p: Point, d: real)
    requires Abs(p.x - c.x) as real <= d && Abs(p.y - c.y) as real <= d
    ensures InRevealRect(c.x, c.y, d + RevealMargin, p)
  {
  }

  /** reveal_pois_in_area on one POI: a hidden POI inside the square becomes visible. */
  function Revealed(p: Poi, cx: int, cy: int, radius: real): (q: Poi)
    ensures q.index == p.index && q.pos == p.pos && q.description == p.description
    ensures q.completed == p.completed && q.shaking == p.shaking && q.shakeStart == p.shakeStart
    ensures q.visible <==> p.visible || InRevealRect(cx, cy, radius, p.pos)
  {
    if !p.visible && InRevealRect(cx, cy, radius, p.pos) then p.(visible := true) else p
  }

  /**
    The promise of the sequential reveal: the square cleared around a completed
    POI always uncovers the POI chosen to be revealed next.
  */
  lemma NextIsRevealed(ps: seq<Poi>, after: nat, from: Point, dist: (Point, Point) -> real)
    requires DominatesAxes(dist)
    requires NextToReveal(ps, after).Some?
    ensures var k := NextToReveal(ps, after).value;
      k < |ps| && Revealed(ps[k], from.x, from.y, RevealRadius(ps, after, from, dist)).visible
  {
    NextToRevealSpec(ps, after);
    var k := NextToReveal(ps, after).value;
    var d := dist(from, ps[k].pos);
    assert d >= Abs(from.x - ps[k].pos.x) as real && d >= Abs(from.y - ps[k].pos.y) as real;
    RevealRectReaches(from, ps[k].pos, d);
  }
}
