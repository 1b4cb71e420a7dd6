/**
  The Game object: the POI registry, the reveal animations running over the
  fog, the information card, and the input controller of handle_events. The
  render, the clock and the event queue stay outside: the caller passes the
  time (pygame.time.get_ticks()), the pointer position and, for clicks, the
  set of POI indices whose on-screen rect contains the pointer.
*/
module Game {
  import opened Arith
  import opened Wrappers
  import opened Viewport
  import opened Fog
  import opened Pois
  import Card
  import TextWrap

  /** The REVEAL_EVENT a completed POI posts: its index and map position. */
  datatype RevealEvent = RevealEvent(index: nat, pos: Point)

  // ---------------------------------------------------------------------------
  // The animation step of update_all
  // ---------------------------------------------------------------------------

  /** Distinct animations over one fog, each with a positive duration. */
  ghost predicate WellFormed(anims: seq<RevealAnimation>, fog: FogMask) {
    (forall i, j :: 0 <= i < j < |anims| ==> anims[i] != anims[j]) &&
    (forall i :: 0 <= i < |anims| ==> anims[i].fog == fog && anims[i].duration > 0)
  }

  /** What Game keeps in reveal_animations: well formed and none finished. */
  ghost predicate Running(anims: seq<RevealAnimation>, fog: FogMask)
    reads anims
  {
    WellFormed(anims, fog) && forall i :: 0 <= i < |anims| ==> !anims[i].finished
  }

  /** The discs one tick of every animation punches, in list order. */
  function Discs(anims: seq<RevealAnimation>, now: int): (ds: seq<Disc>)
    requires forall i :: 0 <= i < |anims| ==> anims[i].duration > 0
    ensures |ds| == |anims|
    ensures forall i :: 0 <= i < |anims| ==> ds[i] == anims[i].DiscAt(now)
  {
    if |anims| == 0 then [] else Discs(anims[..|anims| - 1], now) + [anims[|anims| - 1].DiscAt(now)]
  }

  /** The animations a tick at time now leaves running: those whose duration has not yet elapsed. */
  function StillGrowing(anims: seq<RevealAnimation>, now: int): (r: seq<RevealAnimation>)
    ensures forall i :: 0 <= i < |r| ==> r[i] in anims && now - r[i].start < r[i].duration
    ensures forall i :: 0 <= i < |anims| && now - anims[i].start < anims[i].duration ==> anims[i] in r
    ensures |r| <= |anims|
  {
    if |anims| == 0 then []
    else
      var last := anims[|anims| - 1];
      StillGrowing(anims[..|anims| - 1], now) + (if now - last.start < last.duration then [last] else [])
  }

  /** [anim for anim in reveal_animations if not anim.is_finished] */
  function Unfinished(anims: seq<RevealAnimation>): (r: seq<RevealAnimation>)
    reads anims
    ensures forall i :: 0 <= i < |r| ==> r[i] in anims && !r[i].finished
    ensures forall i :: 0 <= i < |anims| && !anims[i].finished ==> anims[i] in r
  {
    if |anims| == 0 then []
    else
      var last := anims[|anims| - 1];
      Unfinished(anims[..|anims| - 1]) + (if !last.finished then [last] else [])
  }

  /** Once every flag says whether the duration has elapsed, the filter keeps exactly the growing ones, in order. */
  lemma {:induction false} UnfinishedIsStillGrowing(anims: seq<RevealAnimation>, now: int)
    requires forall i :: 0 <= i < |anims| ==> anims[i].finished == (now - anims[i].start >= anims[i].duration)
    ensures Unfinished(anims) == StillGrowing(anims, now)
  {
    if |anims| > 0 {
      UnfinishedIsStillGrowing(anims[..|anims| - 1], now);
    }
  }

  /** The index of the first animation not yet finished, |anims| when there is none. */
  function FirstUnfinished(anims: seq<RevealAnimation>): (k: nat)
    reads anims
    ensures k <= |anims|
    ensures forall j :: 0 <= j < k ==> anims[j].finished
    ensures k < |anims| ==> !anims[k].finished
  {
    if |anims| == 0 then 0
    else if !anims[0].finished then 0
    else 1 + FirstUnfinished(anims[1..])
  }

  /**
    The animation step of update_all as the source writes it: any() over the
    update() results stops at the first True, and update() answers True for
    every animation not yet finished, so only the first unfinished animation
    ticks; then the finished ones are dropped.
  */
  method AdvanceRevealsAsWritten(anims: seq<RevealAnimation>, fog: FogMask, now: int)
    returns (remaining: seq<RevealAnimation>)
    requires WellFormed(anims, fog)
    modifies fog, anims
    ensures var k := old(FirstUnfinished(anims));
      (k == |anims| ==> fog.holes == old(fog.holes)) &&
      (k < |anims| ==> fog.holes == old(fog.holes) + [anims[k].DiscAt(now)] &&
                       anims[k].finished == (now - anims[k].start >= anims[k].duration)) &&
      (forall j :: 0 <= j < |anims| && j != k ==> anims[j].finished == old(anims[j].finished))
    ensures remaining == Unfinished(anims)
  {
    ghost var k := FirstUnfinished(anims);
    var i := 0;
    while i < |anims|
      invariant 0 <= i <= k
      invariant fog.holes == old(fog.holes)
      invariant forall j :: 0 <= j < |anims| ==> anims[j].finished == old(anims[j].finished)
    {
      var active := anims[i].Update(now);
      if active {
        break;
      }
      i := i + 1;
    }
    remaining := Unfinished(anims);
  }

  /** The same step with every animation ticked, as the any() was evidently meant to do. */
  method AdvanceReveals(anims: seq<RevealAnimation>, fog: FogMask, now: int)
    returns (remaining: seq<RevealAnimation>)
    requires Running(anims, fog)
    modifies fog, anims
    ensures fog.holes == old(fog.holes) + Discs(anims, now)
    ensures forall i :: 0 <= i < |anims| ==> anims[i].finished == (now - anims[i].start >= anims[i].duration)
    ensures remaining == StillGrowing(anims, now)
    ensures Running(remaining, fog)
  {
    for i := 0 to |anims|
      invariant fog.holes == old(fog.holes) + Discs(anims[..i], now)
      invariant forall j :: 0 <= j < i ==> anims[j].finished == (now - anims[j].start >= anims[j].duration)
      invariant forall j :: i <= j < |anims| ==> !anims[j].finished
    {
      var _ := anims[i].Update(now);
      assert anims[..i + 1][..i] == anims[..i];
    }
    assert anims[..|anims|] == anims;
    remaining := Unfinished(anims);
    UnfinishedIsStillGrowing(anims, now);
    StillGrowingRunning(anims, now, fog);
  }

  lemma {:induction false} StillGrowingRunning(anims: seq<RevealAnimation>, now: int, fog: FogMask)
    requires WellFormed(anims, fog)
    requires forall i :: 0 <= i < |anims| ==> anims[i].finished == (now - anims[i].start >= anims[i].duration)
    ensures Running(StillGrowing(anims, now), fog)
  {
    if |anims| > 0 {
      var init := anims[..|anims| - 1];
      StillGrowingRunning(init, now, fog);
      var rest := StillGrowing(init, now);
      var last := anims[|anims| - 1];
      assert last !in init;
      assert last !in rest;
    }
  }

  /**
    Two animations started at time 0 and ticked at time 1000, when both have
    run their full duration: the source's step finishes only the first one and
    punches a single disc.
  */
  method SecondAnimationSkipped() returns (secondFinished: bool, punched: nat)
    ensures !secondFinished && punched == 1
  {
    var fog := new FogMask();
    var first := new RevealAnimation(fog, 1000, 1000, 500.0, 0);
    var second := new RevealAnimation(fog, 9000, 9000, 500.0, 0);
    var remaining := AdvanceRevealsAsWritten([first, second], fog, 1000);
    secondFinished, punched := second.finished, |fog.holes|;
  }

  /** The same two animations under the corrected step: both finish, two discs are punched, none remains. */
  method SecondAnimationAdvanced() returns (secondFinished: bool, punched: nat, left: nat)
    ensures secondFinished && punched == 2 && left == 0
  {
    var fog := new FogMask();
    var first := new RevealAnimation(fog, 1000, 1000, 500.0, 0);
    var second := new RevealAnimation(fog, 9000, 9000, 500.0, 0);
    var remaining := AdvanceReveals([first, second], fog, 1000);
    assert [first, second][..1] == [first];
    secondFinished, punched, left := second.finished, |fog.holes|, |remaining|;
  }

  /**
    The animation a REVEAL_EVENT starts: centred on the event's position,
    started now, with the given final radius and the default duration.
  */
  ghost predicate Launched(a: RevealAnimation, e: RevealEvent, now: int, radius: real) {
    a.cx == e.pos.x && a.cy == e.pos.y && a.start == now && a.finalRadius == radius &&
    a.duration == RevealDuration
  }

  /** The animations from base on were launched by the first n events, each with its reveal radius on ps. */
  ghost predicate AllLaunched(anims: seq<RevealAnimation>, base: nat, events: seq<RevealEvent>, n: nat,
                              now: int, ps: seq<Poi>, dist: (Point, Point) -> real)
  {
    base + n <= |anims| && n <= |events| &&
    forall j :: 0 <= j < n ==>
      Launched(anims[base + j], events[j], now, RevealRadius(ps, events[j].index, events[j].pos, dist))
  }

  lemma AllLaunchedStep(anims: seq<RevealAnimation>, anims': seq<RevealAnimation>, base: nat,
                        events: seq<RevealEvent>, n: nat, now: int, ps: seq<Poi>, dist: (Point, Point) -> real)
    requires AllLaunched(anims, base, events, n, now, ps, dist) && base + n == |anims| && n < |events|
    requires |anims'| == |anims| + 1 && anims'[..|anims|] == anims
    requires Launched(anims'[|anims|], events[n], now, RevealRadius(ps, events[n].index, events[n].pos, dist))
    ensures AllLaunched(anims', base, events, n + 1, now, ps, dist)
  {
    assert forall j :: 0 <= j < |anims| ==> anims'[j] == anims[j];
  }

  /** The POI each of the first n events reveals next (on the list ps0) is visible in ps. */
  ghost predicate NextsVisible(ps0: seq<Poi>, events: seq<RevealEvent>, n: nat, ps: seq<Poi>) {
    n <= |events| &&
    forall j :: 0 <= j < n ==>
      var next := NextToReveal(ps0, events[j].index);
      next.Some? ==> next.value < |ps| && ps[next.value].visible
  }

  lemma NextsVisibleStep(ps0: seq<Poi>, events: seq<RevealEvent>, n: nat, mid: seq<Poi>, after: seq<Poi>)
    requires NextsVisible(ps0, events, n, mid) && n < |events| && |after| == |mid|
    requires forall k :: 0 <= k < |mid| && mid[k].visible ==> after[k].visible
    requires var next := NextToReveal(ps0, events[n].index);
      next.Some? ==> next.value < |after| && after[next.value].visible
    ensures NextsVisible(ps0, events, n + 1, after)
  {
  }

  /** Revealing one more square keeps a list that only gained visibility, and keeps every POI already visible. */
  lemma RevealStepFrame(start: seq<Poi>, mid: seq<Poi>, after: seq<Poi>, c: Point, radius: real)
    requires OnlyMoreVisible(start, mid)
    requires |after| == |mid| && forall k :: 0 <= k < |mid| ==> after[k] == Revealed(mid[k], c.x, c.y, radius)
    ensures OnlyMoreVisible(start, after)
    ensures forall k :: 0 <= k < |mid| && mid[k].visible ==> after[k].visible
  {
  }

  /**
    One POI after the squares of the given REVEAL_EVENTs have been revealed
    in turn, each event's radius taken on the list ps: visibility is the only
    field that changes, and it is on exactly when it was on before or the POI
    lies in one of the squares.
  */
  function RevealedAfter(p: Poi, ps: seq<Poi>, events: seq<RevealEvent>, dist: (Point, Point) -> real): (q: Poi)
    ensures q == p.(visible := q.visible)
    ensures q.visible <==>
      (p.visible ||
       exists j :: 0 <= j < |events| &&
         InRevealRect(events[j].pos.x, events[j].pos.y, RevealRadius(ps, events[j].index, events[j].pos, dist), p.pos))
  {
    if |events| == 0 then p
    else
      var e := events[|events| - 1];
      var init := events[..|events| - 1];
      assert forall j :: 0 <= j < |init| ==> init[j] == events[j];
      Revealed(RevealedAfter(p, ps, init, dist), e.pos.x, e.pos.y, RevealRadius(ps, e.index, e.pos, dist))
  }

  /** After the first n events every POI of ps is RevealedAfter them, on the radii of the list ps0. */
  ghost predicate AllRevealed(ps0: seq<Poi>, events: seq<RevealEvent>, n: nat, ps: seq<Poi>,
                              dist: (Point, Point) -> real)
  {
    |ps| == |ps0| && n <= |events| &&
    forall k :: 0 <= k < |ps| ==> ps[k] == RevealedAfter(ps0[k], ps0, events[..n], dist)
  }

  lemma AllRevealedStep(ps0: seq<Poi>, events: seq<RevealEvent>, n: nat, mid: seq<Poi>, after: seq<Poi>,
                        dist: (Point, Point) -> real)
    requires AllRevealed(ps0, events, n, mid, dist) && n < |events| && |after| == |mid|
    requires forall k :: 0 <= k < |mid| ==>
      after[k] == Revealed(mid[k], events[n].pos.x, events[n].pos.y,
                           RevealRadius(ps0, events[n].index, events[n].pos, dist))
    ensures AllRevealed(ps0, events, n + 1, after, dist)
  {
    assert events[..n + 1][..n] == events[..n];
  }

  /**
    The REVEAL_EVENTs the POI loop of update_all posts, in group order, for
    the POI list ps seen through the camera cam (see PostedExactly).
  */
  function Posted(ps: seq<Poi>, cam: Camera, now: int): seq<RevealEvent>
    reads cam
  {
    if |ps| == 0 then []
    else
      var k := |ps| - 1;
      Posted(ps[..k], cam, now) +
        (if cam.Contains(ps[k].pos.x, ps[k].pos.y) && ShakeOver(ps[k], now) then [RevealEvent(k, ps[k].pos)] else [])
  }

  /** Every event of r names a POI of ps inside the camera whose shake is over, with its position. */
  ghost predicate EventsSound(r: seq<RevealEvent>, ps: seq<Poi>, cam: Camera, now: int)
    reads cam
  {
    forall j :: 0 <= j < |r| ==>
      r[j].index < |ps| && r[j].pos == ps[r[j].index].pos &&
      cam.Contains(r[j].pos.x, r[j].pos.y) && ShakeOver(ps[r[j].index], now)
  }

  /** Every POI of ps inside the camera whose shake is over has an event in r. */
  ghost predicate EventsComplete(r: seq<RevealEvent>, ps: seq<Poi>, cam: Camera, now: int)
    reads cam
  {
    forall m :: 0 <= m < |ps| && cam.Contains(ps[m].pos.x, ps[m].pos.y) && ShakeOver(ps[m], now) ==>
      exists j :: 0 <= j < |r| && r[j].index == m
  }

  ghost predicate IndicesIncreasing(r: seq<RevealEvent>) {
    forall i, j :: 0 <= i < j < |r| ==> r[i].index < r[j].index
  }

  /** Every Posted event names a POI of ps inside the camera whose shake is over, with its position. */
  lemma {:induction false} PostedSound(ps: seq<Poi>, cam: Camera, now: int)
    ensures EventsSound(Posted(ps, cam, now), ps, cam, now)
  {
    if |ps| > 0 {
      var k := |ps| - 1;
      var init := ps[..k];
      PostedSound(init, cam, now);
      var rest, r := Posted(init, cam, now), Posted(ps, cam, now);
      forall j | 0 <= j < |r|
        ensures r[j].index < |ps| && r[j].pos == ps[r[j].index].pos &&
          cam.Contains(r[j].pos.x, r[j].pos.y) && ShakeOver(ps[r[j].index], now)
      {
        if j < |rest| {
          assert r[j] == rest[j] && init[rest[j].index] == ps[rest[j].index];
        }
      }
    }
  }

  /** The Posted events come in strictly increasing index order. */
  lemma {:induction false} PostedIncreasing(ps: seq<Poi>, cam: Camera, now: int)
    ensures IndicesIncreasing(Posted(ps, cam, now))
  {
    if |ps| > 0 {
      var k := |ps| - 1;
      var init := ps[..k];
      PostedIncreasing(init, cam, now);
      PostedSound(init, cam, now);
      var rest, r := Posted(init, cam, now), Posted(ps, cam, now);
      assert forall j :: 0 <= j < |rest| ==> r[j] == rest[j];
    }
  }

  /** Every POI of ps inside the camera whose shake is over has a Posted event. */
  lemma {:induction false} PostedComplete(ps: seq<Poi>, cam: Camera, now: int)
    ensures EventsComplete(Posted(ps, cam, now), ps, cam, now)
  {
    if |ps| > 0 {
      var k := |ps| - 1;
      var init := ps[..k];
      PostedComplete(init, cam, now);
      var rest, r := Posted(init, cam, now), Posted(ps, cam, now);
      assert forall j :: 0 <= j < |rest| ==> r[j] == rest[j];
      forall m | 0 <= m < |ps| && cam.Contains(ps[m].pos.x, ps[m].pos.y) && ShakeOver(ps[m], now)
        ensures exists j :: 0 <= j < |r| && r[j].index == m
      {
        if m == k {
          assert r[|rest|].index == k;
        } else {
          assert init[m] == ps[m];
          var j :| 0 <= j < |rest| && rest[j].index == m;
          assert r[j].index == m;
        }
      }
    }
  }

  // ---------------------------------------------------------------------------
  // The game
  // ---------------------------------------------------------------------------

  class Game {
    const camera: Camera
    const fog: FogMask
    /** self.pois, in the order _setup_pois adds them (a Group iterates in insertion order). */
    const pois: array<Poi>
    var animations: seq<RevealAnimation>
    /** REVEAL_EVENTs posted by POI.update and not yet handled. */
    var pending: seq<RevealEvent>
    var card: Card.InfoCard?
    var isDragging: bool
    var clickedOnPoi: Option<nat>
    /** Vector2.distance_to. */
    const dist: (Point, Point) -> real
    /** The body font's size(word)[0]. */
    const textWidth: string -> int
    /** The body font's line height. */
    const lineHeight: int

    ghost predicate Valid()
      reads this, camera, pois, animations, card
    {
      camera.Valid() && camera.InBounds() &&
      (forall k :: 0 <= k < pois.Length ==> pois[k].index == k) &&
      Running(animations, fog) &&
      (card != null ==> card.Valid() && card.poi < pois.Length) &&
      (clickedOnPoi.Some? ==> clickedOnPoi.value < pois.Length && card == null) &&
      DominatesAxes(dist)
    }

    /**
      Game.__init__ on the given POI data: the camera sized by
      recalculate_camera_aspect, no animation, no card, only the first POI
      visible.
    */
    constructor (data: seq<PoiData>, mapW: int, mapH: int, screenW: int, screenH: int,
                 dist: (Point, Point) -> real, textWidth: string -> int, lineHeight: int)
      requires mapW > 0 && mapH > 0 && screenW > 0 && screenH > 0
      requires DominatesAxes(dist)
      ensures Valid()
      ensures pois.Length == |data| && fresh(pois)
      ensures forall k :: 0 <= k < |data| ==> pois[k] == InitialPoi(data[k], k)
      ensures this.dist == dist && this.textWidth == textWidth && this.lineHeight == lineHeight
      ensures camera.mapW == mapW && camera.mapH == mapH
      ensures camera.screenW == screenW && camera.screenH == screenH
      ensures camera.w == Trunc(MaxCameraWidth(mapW, mapH, screenW, screenH))
      ensures camera.h == Trunc(MaxCameraWidth(mapW, mapH, screenW, screenH) / (screenW as real / screenH as real))
      ensures camera.x == ClampAxis(-(camera.w / 2), camera.w, mapW)
      ensures camera.y == ClampAxis(-(camera.h / 2), camera.h, mapH)
      ensures fog.holes == [] && animations == [] && pending == []
      ensures card == null && !isDragging && clickedOnPoi == None
    {
      camera := new Camera(mapW, mapH, screenW, screenH);
      fog := new FogMask();
      pois := new Poi[|data|](i requires 0 <= i < |data| => InitialPoi(data[i], i));
      this.dist, this.textWidth, this.lineHeight := dist, textWidth, lineHeight;
      animations, pending, card := [], [], null;
      isDragging, clickedOnPoi := false, None;
    }

    /** The search loop of trigger_sequential_reveal. */
    method FindNextToReveal(after: nat) returns (next: Option<nat>)
      ensures next == NextToReveal(pois[..], after)
      ensures next.None? <==> forall k :: 0 <= k < pois.Length ==> pois[k].completed
      ensures next.Some? ==> next.value < pois.Length && !pois[next.value].completed
    {
      next := None;
      var n := pois.Length;
      if n == 0 {
        NextToRevealSpec(pois[..], after);
        return;
      }
      for i := 0 to n
        invariant NextToReveal(pois[..], after) == ScanFrom(pois[..], after, i)
      {
        var k := (after + 1 + i) % n;
        if !pois[k].completed {
          next := Some(k);
          break;
        }
      }
      NextToRevealSpec(pois[..], after);
    }

    /** reveal_pois_in_area: every hidden POI inside the square becomes visible; nothing else changes. */
    method RevealPoisInArea(cx: int, cy: int, radius: real)
      modifies pois
      ensures forall k :: 0 <= k < pois.Length ==> pois[k] == Revealed(old(pois[k]), cx, cy, radius)
    {
      for k := 0 to pois.Length
        invariant forall j :: 0 <= j < k ==> pois[j] == Revealed(old(pois[j]), cx, cy, radius)
        invariant forall j :: k <= j < pois.Length ==> pois[j] == old(pois[j])
      {
        if !pois[k].visible && InRevealRect(cx, cy, radius, pois[k].pos) {
          pois[k] := pois[k].(visible := true);
        }
      }
    }

    /**
      trigger_sequential_reveal: a new animation centred on the completed POI,
      with RevealRadius as its final radius, and the POIs under its square
      made visible at once, the next one to reveal among them.
    */
    method TriggerSequentialReveal(completedIndex: nat, from: Point, now: int)
      requires Valid()
      modifies this`animations, pois
      ensures Valid()
      ensures var radius := RevealRadius(old(pois[..]), completedIndex, from, dist);
        |animations| == |old(animations)| + 1 && animations[..|old(animations)|] == old(animations) &&
        fresh(animations[|old(animations)|]) &&
        animations[|old(animations)|].cx == from.x && animations[|old(animations)|].cy == from.y &&
        animations[|old(animations)|].finalRadius == radius && animations[|old(animations)|].start == now &&
        animations[|old(animations)|].duration == RevealDuration &&
        forall k :: 0 <= k < pois.Length ==> pois[k] == Revealed(old(pois[k]), from.x, from.y, radius)
      ensures NextToReveal(old(pois[..]), completedIndex).Some? ==>
        pois[NextToReveal(old(pois[..]), completedIndex).value].visible
    {
      var next := FindNextToReveal(completedIndex);
      var radius;
      if next.Some? {
        radius := dist(from, pois[next.value].pos) + RevealMargin;
      } else {
        radius := FallbackRadius;
      }
      var anim := new RevealAnimation(fog, from.x, from.y, radius, now);
      animations := animations + [anim];
      assert animations[..|old(animations)|] == old(animations);
      ghost var before := pois[..];
      RevealPoisInArea(from.x, from.y, radius);
      if next.Some? {
        NextIsRevealed(before, completedIndex, from, dist);
      }
    }

    /** One REVEAL_EVENT of handle_events. */
    method HandleRevealEvent(e: RevealEvent, now: int)
      requires Valid()
      modifies this`animations, pois
      ensures Valid()
      ensures var radius := RevealRadius(old(pois[..]), e.index, e.pos, dist);
        |animations| == |old(animations)| + 1 && animations[..|old(animations)|] == old(animations) &&
        Launched(animations[|old(animations)|], e, now, radius) &&
        forall k :: 0 <= k < pois.Length ==> pois[k] == Revealed(old(pois[k]), e.pos.x, e.pos.y, radius)
      ensures NextToReveal(old(pois[..]), e.index).Some? ==>
        pois[NextToReveal(old(pois[..]), e.index).value].visible
    {
      TriggerSequentialReveal(e.index, e.pos, now);
    }

    /**
      The REVEAL_EVENT branch of handle_events applied to every posted event,
      in posting order: one animation per event, each sized on the state the
      events find (only visibility changes between them), each uncovering its
      next POI; the queue is left empty.
    */
    method HandleRevealEvents(now: int)
      requires Valid()
      modifies this`animations, this`pending, pois
      ensures Valid()
      ensures pending == []
      ensures |animations| == |old(animations)| + |old(pending)|
      ensures animations[..|old(animations)|] == old(animations)
      ensures forall i :: 0 <= i < |old(pending)| ==>
        Launched(animations[|old(animations)| + i], old(pending)[i], now,
                 RevealRadius(old(pois[..]), old(pending)[i].index, old(pending)[i].pos, dist))
      ensures forall i :: 0 <= i < |old(pending)| ==>
        var next := NextToReveal(old(pois[..]), old(pending)[i].index);
        next.Some? ==> pois[next.value].visible
      ensures OnlyMoreVisible(old(pois[..]), pois[..])
      ensures forall k :: 0 <= k < pois.Length ==>
        pois[k] == RevealedAfter(old(pois[k]), old(pois[..]), old(pending), dist)
    {
      var events := pending;
      pending := [];
      ghost var start := pois[..];
      for i := 0 to |events|
        invariant Valid() && pending == []
        invariant |animations| == |old(animations)| + i
        invariant animations[..|old(animations)|] == old(animations)
        invariant AllLaunched(animations, |old(animations)|, events, i, now, start, dist)
        invariant NextsVisible(start, events, i, pois[..])
        invariant OnlyMoreVisible(start, pois[..])
        invariant AllRevealed(start, events, i, pois[..], dist)
      {
        ghost var before, anims := pois[..], animations;
        RevealRadiusFrame(start, before, events[i].index, events[i].pos, dist);
        HandleRevealEvent(events[i], now);
        assert animations[..|anims|] == anims;
        AllLaunchedStep(anims, animations, |old(animations)|, events, i, now, start, dist);
        RevealStepFrame(start, before, pois[..], events[i].pos, RevealRadius(before, events[i].index, events[i].pos, dist));
        NextsVisibleStep(start, events, i, before, pois[..]);
        AllRevealedStep(start, events, i, before, pois[..], dist);
      }
      assert events[..|events|] == events;
    }

    /**
      The shake branch of POI.update for pois[k]: once the shake has run
      ShakeDuration it is over, the POI is completed and a REVEAL_EVENT with
      its index and position is posted.
    */
    method UpdatePoi(k: nat, now: int)
      requires Valid() && k < pois.Length
      modifies this`pending, pois
      ensures Valid()
      ensures pois[k] == Tick(old(pois[k]), now)
      ensures forall j :: 0 <= j < pois.Length && j != k ==> pois[j] == old(pois[j])
      ensures pending == old(pending) +
        (if ShakeOver(old(pois[k]), now) then [RevealEvent(k, old(pois[k]).pos)] else [])
    {
      if pois[k].shaking && now - pois[k].shakeStart >= ShakeDuration {
        pois[k] := pois[k].(shaking := false, completed := true);
        pending := pending + [RevealEvent(pois[k].index, pois[k].pos)];
      }
    }

    /** The POI loop of update_all: only POIs whose map position lies inside the camera are updated. */
    method UpdatePois(now: int)
      requires Valid()
      modifies this`pending, pois
      ensures Valid()
      ensures forall k :: 0 <= k < pois.Length ==>
        pois[k] == if camera.Contains(old(pois[k]).pos.x, old(pois[k]).pos.y) then Tick(old(pois[k]), now) else old(pois[k])
      ensures pending == old(pending) + Posted(old(pois[..]), camera, now)
    {
      ghost var start := pois[..];
      for k := 0 to pois.Length
        invariant Valid()
        invariant forall j :: 0 <= j < k ==>
          pois[j] == if camera.Contains(old(pois[j]).pos.x, old(pois[j]).pos.y) then Tick(old(pois[j]), now) else old(pois[j])
        invariant forall j :: k <= j < pois.Length ==> pois[j] == old(pois[j])
        invariant pending == old(pending) + Posted(start[..k], camera, now)
      {
        assert start[..k + 1][..k] == start[..k];
        if camera.Contains(pois[k].pos.x, pois[k].pos.y) {
          UpdatePoi(k, now);
        }
      }
      assert start[..pois.Length] == start;
    }

    /**
      update_all: a finished card is dropped, every reveal animation ticks
      (the corrected step) and the finished ones are discarded, then the POIs
      in view are updated.
    */
    method UpdateAll(now: int)
      requires Valid()
      modifies this`card, this`animations, this`pending, pois, fog, animations
      ensures Valid()
      ensures card == (if old(card) != null && old(card.IsFinished(now)) then null else old(card))
      ensures fog.holes == old(fog.holes) + Discs(old(animations), now)
      ensures animations == StillGrowing(old(animations), now)
      ensures forall k :: 0 <= k < pois.Length ==>
        pois[k] == if camera.Contains(old(pois[k]).pos.x, old(pois[k]).pos.y) then Tick(old(pois[k]), now) else old(pois[k])
      ensures pending == old(pending) + Posted(old(pois[..]), camera, now)
      ensures isDragging == old(isDragging) && clickedOnPoi == old(clickedOnPoi)
    {
      ghost var ps, events := pois[..], pending;
      DropFinishedCard(now);
      assert pois[..] == ps && pending == events;
      TickAndUpdatePois(now);
    }

    /** The part of update_all after the card: the animations tick, then the POIs in view are updated. */
    method TickAndUpdatePois(now: int)
      requires Valid()
      modifies this`animations, this`pending, pois, fog, animations
      ensures Valid()
      ensures fog.holes == old(fog.holes) + Discs(old(animations), now)
      ensures animations == StillGrowing(old(animations), now)
      ensures forall k :: 0 <= k < pois.Length ==>
        pois[k] == if camera.Contains(old(pois[k]).pos.x, old(pois[k]).pos.y) then Tick(old(pois[k]), now) else old(pois[k])
      ensures pending == old(pending) + Posted(old(pois[..]), camera, now)
    {
      ghost var ps, events := pois[..], pending;
      TickAnimations(now);
      assert pois[..] == ps && pending == events;
      ghost var holes, anims := fog.holes, animations;
      UpdatePois(now);
      assert fog.holes == holes && animations == anims;
    }

    /** The card part of update_all: a card that has finished disappearing is closed. */
    method DropFinishedCard(now: int)
      requires Valid()
      modifies this`card
      ensures Valid()
      ensures card == (if old(card) != null && old(card.IsFinished(now)) then null else old(card))
    {
      if card != null && card.IsFinished(now) {
        card := null;
      }
    }

    /** The animation part of update_all, with the corrected step. */
    method TickAnimations(now: int)
      requires Valid()
      modifies this`animations, fog, animations
      ensures Valid()
      ensures fog.holes == old(fog.holes) + Discs(old(animations), now)
      ensures animations == StillGrowing(old(animations), now)
    {
      var remaining := AdvanceReveals(animations, fog, now);
      animations := remaining;
      assert camera.Valid() && camera.InBounds();
      assert card != null ==> card.Valid() && card.poi < pois.Length;
    }

    /** The state change inside draw_all: an appearing card whose grow animation is complete becomes idle. */
    method AdvanceCard(now: int)
      requires Valid()
      modifies card
      ensures Valid()
      ensures card != null ==>
        card.state == (if old(card.state) == Card.Appearing && now - card.animStart >= Card.SizeAnimDuration
                       then Card.Idle else old(card.state))
      ensures card != null ==>
        card.animStart == old(card.animStart) && card.scrollY == old(card.scrollY) &&
        card.left == old(card.left) && card.top == old(card.top)
    {
      if card != null {
        card.AdvanceAppearing(now);
      }
    }

    /** start_shake_animation on pois[k]. */
    method StartShakeAnimation(k: nat, now: int)
      requires k < pois.Length
      modifies pois
      ensures pois[k] == StartShake(old(pois[k]), now)
      ensures forall j :: 0 <= j < pois.Length && j != k ==> pois[j] == old(pois[j])
    {
      if !pois[k].shaking && !pois[k].completed {
        pois[k] := pois[k].(shaking := true, shakeStart := now);
      }
    }

    /** The first visible POI, in group order, whose rect contains the click. */
    method FindClickedPoi(hits: set<nat>) returns (clicked: Option<nat>)
      ensures clicked.Some? ==>
        clicked.value < pois.Length && pois[clicked.value].visible && clicked.value in hits &&
        forall j :: 0 <= j < clicked.value ==> !(pois[j].visible && j in hits)
      ensures clicked.None? ==> forall j :: 0 <= j < pois.Length ==> !(pois[j].visible && j in hits)
    {
      clicked := None;
      for k := 0 to pois.Length
        invariant forall j :: 0 <= j < k ==> !(pois[j].visible && j in hits)
      {
        if pois[k].visible && k in hits {
          clicked := Some(k);
          return;
        }
      }
    }

    /**
      MOUSEBUTTONDOWN. With an idle card open, any button on the card's button
      shakes the card's POI (unless completed) and starts the card's
      disappearing. With no card, the left button on a visible POI remembers
      that POI; elsewhere it starts a drag.
    */
    method OnMouseDown(button: int, px: int, py: int, hits: set<nat>, now: int)
      requires Valid()
      modifies this`isDragging, this`clickedOnPoi, pois, card
      ensures Valid()
      ensures old(card) != null && old(card.state) == Card.Idle ==>
        isDragging == old(isDragging) && clickedOnPoi == old(clickedOnPoi) &&
        (card.ButtonContains(px, py) ==>
          card.state == Card.Disappearing && card.animStart == now &&
          pois[card.poi] == StartShake(old(pois[card.poi]), now) &&
          forall k :: 0 <= k < pois.Length && k != card.poi ==> pois[k] == old(pois[k])) &&
        (!card.ButtonContains(px, py) ==> card.state == Card.Idle && pois[..] == old(pois[..]))
      ensures old(card) == null && button == 1 ==>
        pois[..] == old(pois[..]) &&
        ((clickedOnPoi.Some? && clickedOnPoi.value < pois.Length && pois[clickedOnPoi.value].visible &&
          clickedOnPoi.value in hits && isDragging == old(isDragging) &&
          forall j :: 0 <= j < clickedOnPoi.value ==> !(pois[j].visible && j in hits)) ||
         (clickedOnPoi == old(clickedOnPoi) && isDragging &&
          forall j :: 0 <= j < pois.Length ==> !(pois[j].visible && j in hits)))
      ensures (old(card) == null && button != 1) || (old(card) != null && old(card.state) != Card.Idle) ==>
        isDragging == old(isDragging) && clickedOnPoi == old(clickedOnPoi) && pois[..] == old(pois[..]) &&
        (card != null ==> card.state == old(card.state) && card.animStart == old(card.animStart))
      ensures card == old(card)
      ensures card != null ==>
        card.scrollY == old(card.scrollY) && card.left == old(card.left) && card.top == old(card.top)
      ensures card != null && !(old(card.state) == Card.Idle && card.ButtonContains(px, py)) ==>
        card.animStart == old(card.animStart)
    {
      if card != null && card.state == Card.Idle {
        if card.ButtonContains(px, py) {
          if !pois[card.poi].completed {
            StartShakeAnimation(card.poi, now);
          }
          card.StartDisappearing(now);
        }
      } else if button == 1 && card == null {
        var clicked := FindClickedPoi(hits);
        if clicked.Some? {
          clickedOnPoi := clicked;
        } else {
          isDragging := true;
        }
      }
    }

    /**
      MOUSEBUTTONUP with the left button ends the press: a card opens for the
      remembered POI if the pointer is still over it; the drag and the
      remembered POI are cleared either way. Other buttons change nothing.
    */
    method OnMouseUp(button: int, hits: set<nat>, now: int)
      requires Valid()
      modifies this`card, this`isDragging, this`clickedOnPoi
      ensures Valid()
      ensures button == 1 ==> !isDragging && clickedOnPoi == None
      ensures button == 1 && old(clickedOnPoi).Some? && old(clickedOnPoi).value in hits ==>
        old(card) == null && card != null && fresh(card) &&
        card.poi == old(clickedOnPoi).value && card.state == Card.Appearing && card.scrollY == 0 &&
        card.animStart == now &&
        card.left == camera.screenW / 2 - Card.CardWidth / 2 &&
        card.top == camera.screenH / 2 - Card.CardHeight / 2 &&
        |card.lines| >= 1 && card.lineHeight == lineHeight &&
        card.maxScroll == Card.MaxScroll(|card.lines| * lineHeight) &&
        (TextWrap.AllClean(TextWrap.Split(pois[card.poi].description)) ==>
          TextWrap.Join(TextWrap.NonEmpty(card.lines)) == pois[card.poi].description)
      ensures !(button == 1 && old(clickedOnPoi).Some? && old(clickedOnPoi).value in hits) ==> card == old(card)
      ensures button != 1 ==> isDragging == old(isDragging) && clickedOnPoi == old(clickedOnPoi)
    {
      if button == 1 {
        if clickedOnPoi.Some? && clickedOnPoi.value in hits {
          var k := clickedOnPoi.value;
          card := new Card.InfoCard(k, pois[k].description, textWidth, lineHeight, now,
                                    camera.screenW, camera.screenH);
        }
        isDragging := false;
        clickedOnPoi := None;
      }
    }

    /**
      MOUSEMOTION: moving with a POI remembered turns the press into a drag;
      while dragging with no card open the camera pans by the relative motion.
    */
    method OnMouseMotion(dx: int, dy: int)
      requires Valid()
      modifies this`isDragging, this`clickedOnPoi, camera
      ensures Valid()
      ensures old(clickedOnPoi).Some? && !old(isDragging) ==> isDragging && clickedOnPoi == None
      ensures !(old(clickedOnPoi).Some? && !old(isDragging)) ==>
        isDragging == old(isDragging) && clickedOnPoi == old(clickedOnPoi)
      ensures isDragging && card == null ==>
        var moved := PannedView(old(camera.AsView()), camera.screenW as real, dx as real, dy as real);
        camera.x == ClampAxis(Trunc(moved.x), camera.w, camera.mapW) &&
        camera.y == ClampAxis(Trunc(moved.y), camera.h, camera.mapH) &&
        camera.w == old(camera.w) && camera.h == old(camera.h)
      ensures !(isDragging && card == null) ==> camera.x == old(camera.x) && camera.y == old(camera.y)
      ensures camera.w == old(camera.w) && camera.h == old(camera.h)
      ensures camera.screenW == old(camera.screenW) && camera.screenH == old(camera.screenH)
    {
      if clickedOnPoi.Some? && !isDragging {
        isDragging := true;
        clickedOnPoi := None;
      }
      if isDragging && card == null {
        camera.Pan(dx, dy);
      }
    }

    /** A left press on a POI, a move, and a release on the same POI: the move made it a drag, so no card opens. */
    method PressMoveRelease(downHits: set<nat>, px: int, py: int, dx: int, dy: int, upHits: set<nat>, now: int)
      requires Valid() && card == null && !isDragging && clickedOnPoi == None
      modifies this`isDragging, this`clickedOnPoi, this`card, pois, camera
      ensures Valid() && card == null && !isDragging && clickedOnPoi == None
    {
      OnMouseDown(1, px, py, downHits, now);
      OnMouseMotion(dx, dy);
      OnMouseUp(1, upHits, now);
    }

    /** A left press and release over the same visible POI, with nothing in between, opens that POI's card. */
    method PressRelease(k: nat, downHits: set<nat>, px: int, py: int, upHits: set<nat>, now: int)
      requires Valid() && card == null && clickedOnPoi == None
      requires k < pois.Length && pois[k].visible && k in downHits && k in upHits
      requires forall j :: 0 <= j < pois.Length && j in downHits ==> j == k
      modifies this`isDragging, this`clickedOnPoi, this`card, pois
      ensures Valid() && card != null && card.poi == k && card.state == Card.Appearing
      ensures !isDragging && clickedOnPoi == None
    {
      OnMouseDown(1, px, py, downHits, now);
      OnMouseUp(1, upHits, now);
    }

    /** MOUSEWHEEL: scrolls an open card, zooms the camera otherwise. */
    method OnMouseWheel(wheel: int, mouseX: int, mouseY: int)
      requires Valid()
      modifies camera, card
      ensures Valid()
      ensures card != null ==>
        card.scrollY == (if card.Contains(mouseX, mouseY) then Card.ScrollBy(old(card.scrollY), wheel, card.maxScroll) else old(card.scrollY)) &&
        camera.x == old(camera.x) && camera.y == old(camera.y) &&
        camera.w == old(camera.w) && camera.h == old(camera.h)
      ensures card == null ==>
        var width := ZoomWidth(old(camera.w) as real, wheel, camera.mapW as real / 15.0,
                               MaxCameraWidth(camera.mapW, camera.mapH, camera.screenW, camera.screenH));
        camera.w == Trunc(width) && camera.h == Trunc(width / camera.Aspect())
      ensures card == null ==>
        var anchor := AnchoredView(old(camera.AsView()), camera.screenW as real,
                                   Vec(mouseX as real, mouseY as real), camera.w as real);
        camera.x == ClampAxis(Trunc(anchor.x), camera.w, camera.mapW) &&
        camera.y == ClampAxis(Trunc(anchor.y), camera.h, camera.mapH)
      ensures camera.screenW == old(camera.screenW) && camera.screenH == old(camera.screenH)
      ensures card != null ==>
        card.state == old(card.state) && card.animStart == old(card.animStart) &&
        card.left == old(card.left) && card.top == old(card.top)
    {
      if card != null {
        card.HandleScroll(wheel, mouseX, mouseY);
      } else {
        camera.HandleZoom(wheel, mouseX, mouseY);
      }
    }

    /**
      VIDEORESIZE: the camera keeps its width and centre under the new aspect,
      and an open card re-centres. A side of zero makes the aspect division
      raise (raised), which stops the program with the camera rect and the
      card as they were.
    */
    method OnResize(newW: int, newH: int) returns (raised: bool)
      requires Valid()
      modifies camera, card
      ensures raised <==> newW <= 0 || newH <= 0
      ensures camera.screenW == newW && camera.screenH == newH
      ensures !raised ==> Valid()
      ensures !raised ==>
        camera.w == old(camera.w) && camera.h == Trunc(old(camera.w) as real / camera.Aspect()) &&
        camera.x == ClampAxis(old(camera.x + camera.w / 2) - camera.w / 2, camera.w, camera.mapW) &&
        camera.y == ClampAxis(old(camera.y + camera.h / 2) - camera.h / 2, camera.h, camera.mapH)
      ensures raised ==>
        camera.x == old(camera.x) && camera.y == old(camera.y) &&
        camera.w == old(camera.w) && camera.h == old(camera.h)
      ensures card != null ==>
        card.state == old(card.state) && card.animStart == old(card.animStart) &&
        card.scrollY == old(card.scrollY)
      ensures card != null && !raised ==>
        card.left == newW / 2 - Card.CardWidth / 2 && card.top == newH / 2 - Card.CardHeight / 2
      ensures card != null && raised ==> card.left == old(card.left) && card.top == old(card.top)
    {
      raised := camera.Resize(newW, newH);
      if !raised && card != null {
        card.UpdatePosition(newW, newH);
      }
    }
  }
}
