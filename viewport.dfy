/**
  The camera of the map viewer: a pygame.Rect in map space (integer fields,
  floats stored into it are truncated), the window size it is drawn into and
  the size of the map image, whose rectangle has its origin at (0, 0).
  The coordinate transforms are exact linear maps over the reals.
*/
module Viewport {
  import opened Arith
  import opened Wrappers

  /** A point (pygame.math.Vector2), in map or screen space. */
  datatype Vec = Vec(x: real, y: real)

  /** The part of a camera the transforms use: its origin and width. */
  datatype View = View(x: real, y: real, width: real)

  /** Map space to screen space: one uniform scale, screen width over camera width. */
  function MapToScreen(v: View, screenW: real, p: Vec): (s: Vec)
    requires v.width != 0.0
    ensures p.x == v.x ==> s.x == 0.0
    ensures p.y == v.y ==> s.y == 0.0
    ensures p.x == v.x + v.width ==> s.x == screenW
  {
    var scale := screenW / v.width;
    Vec((p.x - v.x) * scale, (p.y - v.y) * scale)
  }

  /** Screen space to map space: camera width over screen width, then the camera origin. */
  function ScreenToMap(v: View, screenW: real, s: Vec): (p: Vec)
    requires screenW != 0.0
    ensures s.x == 0.0 ==> p.x == v.x
    ensures s.y == 0.0 ==> p.y == v.y
    ensures s.x == screenW ==> p.x == v.x + v.width
  {
    var scale := v.width / screenW;
    Vec(s.x * scale + v.x, s.y * scale + v.y)
  }

  lemma ScaleInverse(a: real, b: real)
    requires a != 0.0 && b != 0.0
    ensures (a / b) * (b / a) == 1.0
  {
  }

  /** Going to the screen and back gives the same map point, for any camera and screen of non-zero width. */
  lemma MapScreenRoundTrip(v: View, screenW: real, p: Vec)
    requires v.width != 0.0 && screenW != 0.0
    ensures ScreenToMap(v, screenW, MapToScreen(v, screenW, p)) == p
  {
    var s, t := screenW / v.width, v.width / screenW;
    ScaleInverse(screenW, v.width);
    assert (p.x - v.x) * s * t == p.x - v.x;
    assert (p.y - v.y) * s * t == p.y - v.y;
  }

  /** Going to the map and back gives the same screen point. */
  lemma ScreenMapRoundTrip(v: View, screenW: real, s: Vec)
    requires v.width != 0.0 && screenW != 0.0
    ensures MapToScreen(v, screenW, ScreenToMap(v, screenW, s)) == s
  {
    var a, b := v.width / screenW, screenW / v.width;
    ScaleInverse(v.width, screenW);
    assert a * b == 1.0;
    assert s.x * a * b == s.x * (a * b) == s.x;
    assert s.y * a * b == s.y * (a * b) == s.y;
  }

  /**
    The camera the zoom lands on before its fields are truncated and clamped:
    width newWidth, origin placed so that the pivot keeps its map point.
  */
  function AnchoredView(v: View, screenW: real, pivot: Vec, newWidth: real): (r: View)
    requires screenW != 0.0
    ensures r.width == newWidth
    ensures ScreenToMap(r, screenW, pivot) == ScreenToMap(v, screenW, pivot)
  {
    var m := ScreenToMap(v, screenW, pivot);
    var scale := newWidth / screenW;
    View(m.x - pivot.x * scale, m.y - pivot.y * scale, newWidth)
  }

  /**
    The camera after a drag by (dx, dy) screen pixels, before truncation and
    clamping: the map point that was under a screen position is afterwards
    under that position moved by the drag.
  */
  function PannedView(v: View, screenW: real, dx: real, dy: real): (r: View)
    requires screenW != 0.0
    ensures r.width == v.width
    ensures dx == 0.0 ==> r.x == v.x
    ensures dy == 0.0 ==> r.y == v.y
    ensures v.width > 0.0 && screenW > 0.0 ==> (dx > 0.0 ==> r.x < v.x) && (dx < 0.0 ==> r.x > v.x)
    ensures v.width > 0.0 && screenW > 0.0 ==> (dy > 0.0 ==> r.y < v.y) && (dy < 0.0 ==> r.y > v.y)
  {
    var scale := v.width / screenW;
    View(v.x - dx * scale, v.y - dy * scale, v.width)
  }

  /** A drag keeps the grabbed map point under the pointer: what was under s is under s + (dx, dy) afterwards. */
  lemma PanKeepsGrip(v: View, screenW: real, dx: real, dy: real, s: Vec)
    requires screenW != 0.0
    ensures PannedView(v, screenW, dx, dy).width == v.width
    ensures ScreenToMap(PannedView(v, screenW, dx, dy), screenW, Vec(s.x + dx, s.y + dy)) == ScreenToMap(v, screenW, s)
  {
    var scale := v.width / screenW;
    assert (s.x + dx) * scale == s.x * scale + dx * scale;
    assert (s.y + dy) * scale == s.y * scale + dy * scale;
  }

  /**
    The width of the camera that covers the map on one axis and fills the
    screen's aspect ratio: if the screen is wider than the map, the map's
    height times the screen aspect, otherwise the map's width.
  */
  function MaxCameraWidth(mapW: int, mapH: int, screenW: int, screenH: int): (r: real)
    requires mapW > 0 && mapH > 0 && screenW > 0 && screenH > 0
    ensures r >= mapW as real
    ensures r / (screenW as real / screenH as real) >= mapH as real
    ensures r == mapW as real || r / (screenW as real / screenH as real) == mapH as real
  {
    var screenAspect := screenW as real / screenH as real;
    assert screenAspect > 0.0;
    if screenAspect > mapW as real / mapH as real then
      WiderScreen(mapW as real, mapH as real, screenAspect);
      mapH as real * screenAspect
    else
      NarrowerScreen(mapW as real, mapH as real, screenAspect);
      mapW as real
  }

  /** A screen wider than the map: the camera is as tall as the map and wider than it. */
  lemma WiderScreen(w: real, h: real, s: real)
    requires w > 0.0 && h > 0.0 && s > w / h
    ensures h * s > w && h * s / s == h
  {
    assert w / h * h == w;
  }

  /** A screen no wider than the map: the camera is as wide as the map and at least as tall. */
  lemma NarrowerScreen(w: real, h: real, s: real)
    requires w > 0.0 && h > 0.0 && 0.0 < s <= w / h
    ensures w / s >= h
  {
    DivideBySmaller(w, s, w / h);
    assert w / (w / h) == h;
  }

  lemma DivideBySmaller(a: real, b: real, c: real)
    requires a > 0.0 && 0.0 < b <= c
    ensures a / b >= a / c
  {
  }

  /** Zooming in (direction > 0) scales the width by 0.8, anything else by 1.25. */
  function ZoomFactor(direction: int): (f: real)
    ensures f > 0.0
    ensures f < 1.0 <==> direction > 0
  {
    if direction > 0 then 0.8 else 1.25
  }

  /** The width handle_zoom asks for: scaled, then held to at most maxW and at least minW. */
  function ZoomWidth(width: real, direction: int, minW: real, maxW: real): (r: real)
    ensures minW <= maxW ==> minW <= r <= maxW
    ensures minW <= width * ZoomFactor(direction) <= maxW ==> r == width * ZoomFactor(direction)
    ensures width * ZoomFactor(direction) > maxW && maxW >= minW ==> r == maxW
    ensures width * ZoomFactor(direction) < minW ==> r == minW
  {
    var scaled := width * ZoomFactor(direction);
    var capped := if scaled > maxW then maxW else scaled;
    if capped < minW then minW else capped
  }

  /**
    From a width within the bounds, zooming in never widens the camera and
    zooming out never narrows it; where the bound is not reached the change
    is strict.
  */
  lemma ZoomDirection(width: real, direction: int, minW: real, maxW: real)
    requires 0.0 < minW <= width <= maxW
    ensures direction > 0 ==> ZoomWidth(width, direction, minW, maxW) <= width
    ensures direction <= 0 ==> ZoomWidth(width, direction, minW, maxW) >= width
    ensures direction > 0 && width * 0.8 >= minW ==> ZoomWidth(width, direction, minW, maxW) < width
    ensures direction <= 0 && width * 1.25 <= maxW ==> ZoomWidth(width, direction, minW, maxW) > width
  {
  }

  /**
    One axis of check_camera_bounds: a camera at least as large as the map is
    centred on it (centerx/centery set to the map's), a smaller one is pushed
    back inside (left to at least 0, then right to at most the map's edge).
  */
  ghost predicate AxisInBounds(pos: int, size: int, extent: int) {
    if size >= extent then pos + size / 2 == extent / 2
    else 0 <= pos && pos + size <= extent
  }

  function ClampAxis(pos: int, size: int, extent: int): (r: int)
    requires size >= 0 && extent >= 0
    ensures AxisInBounds(r, size, extent)
    ensures AxisInBounds(pos, size, extent) ==> r == pos
    ensures size >= extent ==> r <= 0 && r + size >= extent
    ensures size < extent && pos < 0 ==> r == 0
    ensures size < extent && pos + size > extent ==> r == extent - size
  {
    if size >= extent then extent / 2 - size / 2
    else Min(Max(pos, 0) + size, extent) - size
  }

  /** Clamping twice is clamping once. */
  lemma ClampAxisIdempotent(pos: int, size: int, extent: int)
    requires size >= 0 && extent >= 0
    ensures ClampAxis(ClampAxis(pos, size, extent), size, extent) == ClampAxis(pos, size, extent)
  {
  }

  class Camera {
    /** The pygame.Rect self.camera, in map pixels. */
    var x: int
    var y: int
    var w: int
    var h: int
    /** self.screen_size. */
    var screenW: int
    var screenH: int
    /** The size of self.map_full_rect, whose origin is (0, 0). */
    const mapW: int
    const mapH: int

    ghost predicate Valid()
      reads this
    {
      mapW > 0 && mapH > 0 && screenW > 0 && screenH > 0 && w >= 0 && h >= 0
    }

    /** What check_camera_bounds establishes, axis by axis. */
    ghost predicate InBounds()
      reads this
    {
      AxisInBounds(x, w, mapW) && AxisInBounds(y, h, mapH)
    }

    function Aspect(): real
      reads this
      requires screenH > 0
    {
      screenW as real / screenH as real
    }

    function AsView(): View
      reads this
    {
      View(x as real, y as real, w as real)
    }

    /**
      camera.collidepoint(p): the half-open rectangle test. The top-left
      corner is inside a non-empty camera, the right and bottom edges are
      not, and an empty camera holds no point.
    */
    predicate Contains(px: int, py: int): (r: bool)
      reads this
      ensures r ==> w > 0 && h > 0
      ensures px == x && py == y && w > 0 && h > 0 ==> r
      ensures px == x + w || py == y + h ==> !r
    {
      x <= px < x + w && y <= py < y + h
    }

    /** Game.__init__: the camera starts as Rect(0, 0, 0, 0) and recalculate_camera_aspect() sizes it. */
    constructor (mapW: int, mapH: int, screenW: int, screenH: int)
      requires mapW > 0 && mapH > 0 && screenW > 0 && screenH > 0
      ensures Valid() && InBounds()
      ensures this.mapW == mapW && this.mapH == mapH
      ensures this.screenW == screenW && this.screenH == screenH
      ensures w == Trunc(MaxCameraWidth(mapW, mapH, screenW, screenH))
      ensures h == Trunc(MaxCameraWidth(mapW, mapH, screenW, screenH) / (screenW as real / screenH as real))
      ensures x == ClampAxis(-(w / 2), w, mapW) && y == ClampAxis(-(h / 2), h, mapH)
    {
      this.mapW, this.mapH := mapW, mapH;
      this.screenW, this.screenH := screenW, screenH;
      x, y, w, h := 0, 0, 0, 0;
      new;
      RecalculateAspect(None);
    }

    /** check_camera_bounds: size kept, each axis clamped; a second call changes nothing. */
    method CheckBounds()
      requires Valid()
      modifies this`x, this`y
      ensures Valid() && InBounds()
      ensures x == ClampAxis(old(x), w, mapW) && y == ClampAxis(old(y), h, mapH)
      ensures old(InBounds()) ==> x == old(x) && y == old(y)
    {
      if w >= mapW {
        x := mapW / 2 - w / 2;
      } else {
        x := Max(x, 0);
        x := Min(x + w, mapW) - w;
      }
      if h >= mapH {
        y := mapH / 2 - h / 2;
      } else {
        y := Max(y, 0);
        y := Min(y + h, mapH) - h;
      }
    }

    /**
      recalculate_camera_aspect: the width is the one given, or the covering
      width when none is; the height follows from the screen aspect; the centre
      stays where it was; then the bounds are enforced.
    */
    method RecalculateAspect(newWidth: Option<real>)
      requires Valid()
      requires newWidth.Some? ==> newWidth.value >= 0.0
      modifies this`x, this`y, this`w, this`h
      ensures Valid() && InBounds()
      ensures var width := if newWidth.Some? then newWidth.value
                           else MaxCameraWidth(mapW, mapH, screenW, screenH);
              w == Trunc(width) && h == Trunc(width / Aspect())
      ensures x == ClampAxis(old(x + w / 2) - w / 2, w, mapW)
      ensures y == ClampAxis(old(y + h / 2) - h / 2, h, mapH)
    {
      var centerX, centerY := x + w / 2, y + h / 2;
      var width := if newWidth.Some? then newWidth.value
                   else MaxCameraWidth(mapW, mapH, screenW, screenH);
      var height := width / (screenW as real / screenH as real);
      w, h := Trunc(width), Trunc(height);
      x, y := centerX - w / 2, centerY - h / 2;
      CheckBounds();
    }

    /**
      The VIDEORESIZE branch of handle_events: new screen size, same camera
      width. The screen size is stored first; with a side of zero the aspect
      division of recalculate_camera_aspect raises ZeroDivisionError and the
      program stops (raised), leaving the camera rect as it was. VIDEORESIZE
      never reports a negative side; the model treats one as the same failure.
    */
    method Resize(newScreenW: int, newScreenH: int) returns (raised: bool)
      requires Valid()
      modifies this
      ensures screenW == newScreenW && screenH == newScreenH
      ensures raised <==> newScreenW <= 0 || newScreenH <= 0
      ensures raised ==> x == old(x) && y == old(y) && w == old(w) && h == old(h)
      ensures !raised ==> Valid() && InBounds()
      ensures !raised ==> w == old(w) && h == Trunc(old(w) as real / Aspect())
      ensures !raised ==> x == ClampAxis(old(x + w / 2) - w / 2, w, mapW)
      ensures !raised ==> y == ClampAxis(old(y + h / 2) - h / 2, h, mapH)
    {
      screenW, screenH := newScreenW, newScreenH;
      if newScreenW <= 0 || newScreenH <= 0 {
        return true;
      }
      RecalculateAspect(Some(w as real));
      TruncOfInt(old(w));
      raised := false;
    }

    /**
      handle_zoom: width scaled by ZoomFactor and held to [map width / 15,
      MaxCameraWidth], height from the screen aspect, origin re-anchored on the
      pivot (with the truncated width's scale, as the source does), then the
      bounds are enforced.
    */
    method HandleZoom(direction: int, mouseX: int, mouseY: int)
      requires Valid()
      modifies this`x, this`y, this`w, this`h
      ensures Valid() && InBounds()
      ensures var width := ZoomWidth(old(w) as real, direction, mapW as real / 15.0,
                                     MaxCameraWidth(mapW, mapH, screenW, screenH));
              w == Trunc(width) && h == Trunc(width / Aspect())
      ensures var anchor := AnchoredView(old(AsView()), screenW as real, Vec(mouseX as real, mouseY as real), w as real);
              x == ClampAxis(Trunc(anchor.x), w, mapW) && y == ClampAxis(Trunc(anchor.y), h, mapH)
    {
      var mouse := Vec(mouseX as real, mouseY as real);
      var before := AsView();
      var newWidth := ZoomWidth(before.width, direction, mapW as real / 15.0,
                                MaxCameraWidth(mapW, mapH, screenW, screenH));
      w := Trunc(newWidth);
      h := Trunc(newWidth / (screenW as real / screenH as real));
      var anchor := AnchoredView(before, screenW as real, mouse, w as real);
      x, y := Trunc(anchor.x), Trunc(anchor.y);
      CheckBounds();
    }

    /** The drag branch of MOUSEMOTION: the origin moves against the scaled delta, then the bounds are enforced. */
    method Pan(dx: int, dy: int)
      requires Valid()
      modifies this`x, this`y
      ensures Valid() && InBounds()
      ensures var moved := PannedView(old(AsView()), screenW as real, dx as real, dy as real);
              x == ClampAxis(Trunc(moved.x), w, mapW) && y == ClampAxis(Trunc(moved.y), h, mapH)
    {
      var moved := PannedView(AsView(), screenW as real, dx as real, dy as real);
      x, y := Trunc(moved.x), Trunc(moved.y);
      CheckBounds();
    }
  }

  /**
    The window the application opens (900 x 720) on the fallback map size
    (16761 x 16910): the screen is wider than the map, so the camera is as high
    as the map, 21137.5 map pixels wide before truncation, and centred
    horizontally.
  */
  lemma InitialCameraScenario()
    ensures MaxCameraWidth(16761, 16910, 900, 720) == 21137.5
    ensures Trunc(21137.5) == 21137
    ensures Trunc(21137.5 / (900 as real / 720 as real)) == 16910
    ensures ClampAxis(-(21137 / 2), 21137, 16761) == -2188
    ensures ClampAxis(-(16910 / 2), 16910, 16910) == 0
  {
    assert 900 as real / 720 as real == 1.25;
    assert 21137.5 / 1.25 == 16910.0;
  }
}
