# Mapa de Curitiba: a verified model of the game logic

This is a Dafny model of the logic in `TCC_mapa_de_curitiba/main.py`, a pygame
exploration game over a map of Curitiba. The map starts covered by fog, and
only the first point of interest (POI) is visible. A card opens when the
player clicks a visible POI. The card's button shakes that POI. When the shake
is over the POI is completed, and it posts a reveal:
- an animated disc clears the fog around the completed POI;
- every POI inside the disc's bounding square becomes visible;
- the radius is chosen so that the next POI that is not completed, in cyclic
  index order, is always among them.

The camera is a `pygame.Rect` over the map. The wheel zooms it around the
pointer and a drag pans it, and it is always pushed back inside the map, or
centred on an axis where it is at least as large as the map.

Modules:

- `Arith`: `int()` on a float and the truncation of floats stored in a
  `pygame.Rect`, both toward zero, plus min/max/abs and the uniqueness of
  Euclidean remainders.
- `Wrappers`: `Option`.
- `Viewport`:
  - the map/screen transforms, over exact reals;
  - the zoom width and pivot;
  - the drag;
  - the per-axis bounds clamp;
  - the class `Camera`, whose integer fields change in place.
- `Fog`:
  - the fog, kept as the list of discs punched into it (`FogMask`);
  - the cubic easing;
  - the class `RevealAnimation`.
- `TextWrap`: `wrap_text`, with `str.split(' ')`, `' '.join` and `str.strip`.
- `Card`: the class `InfoCard`, covering its life cycle, its scrolling and its
  position.
- `Pois`:
  - the POI record and its shake/complete transitions;
  - the cyclic search for the next POI to reveal;
  - the reveal radius and the reveal square.
- `Game`:
  - the class `Game`, which owns the camera, the fog, the POI array, the
    running animations, the posted reveal events, the open card and the
    press/drag state;
  - the animation step of `update_all`, as written and corrected.

Inputs the program takes from pygame are parameters:
- the time (`pygame.time.get_ticks()`);
- the pointer position;
- the wheel and motion deltas;
- the screen size;
- for clicks, the set of POI indices whose on-screen rect contains the pointer.

Three pieces of the program are abstract functions fixed when the `Game` is
built:
- the rendered width of a string (`font.size(s)[0]`);
- the line height;
- the distance between two map points (`Vector2.distance_to`).

The game's invariant asks only that the distance is at least the difference
along either axis, which Euclidean distance satisfies.

Python floats are modelled as exact reals. Every place where the program
stores a float into a `Rect` or calls `int()` on it is an explicit
truncation toward zero.

## Model

| member | source | states |
|---|---|---|
| Arith.Trunc | TCC_mapa_de_curitiba/main.py:59 | int() of a float drops the fraction toward zero, for either sign |
| Viewport.MapScreenRoundTrip | TCC_mapa_de_curitiba/main.py:424-434 | screen_to_map(map_to_screen(p)) == p for any camera and screen of non-zero width |
| Viewport.ScreenMapRoundTrip | TCC_mapa_de_curitiba/main.py:424-434 | map_to_screen(screen_to_map(s)) == s for any camera and screen of non-zero width |
| Viewport.MapToScreen | TCC_mapa_de_curitiba/main.py:424-428 | the camera origin maps to the screen origin, and the camera's right edge to the screen's right edge |
| Viewport.ScreenToMap | TCC_mapa_de_curitiba/main.py:430-434 | the screen origin maps to the camera origin, and the screen's right edge to the camera's right edge |
| Viewport.PannedView | TCC_mapa_de_curitiba/main.py:533-536 | the width is kept; no motion keeps the origin; a drag to the right or down moves the origin left or up, and the reverse |
| Viewport.AnchoredView | TCC_mapa_de_curitiba/main.py:453-474 | the re-anchored camera has the new width and maps the pivot screen point to the same map point as before the zoom |
| Viewport.PanKeepsGrip | TCC_mapa_de_curitiba/main.py:533-536 | after a drag by (dx, dy) the map point that was under s is under s + (dx, dy), and the width is unchanged |
| Viewport.MaxCameraWidth | TCC_mapa_de_curitiba/main.py:405-410 | the covering width is at least the map width, its height at the screen aspect is at least the map height, and one of the two is tight |
| Viewport.ZoomFactor | TCC_mapa_de_curitiba/main.py:456-457 | the factor is positive and below 1 exactly when the wheel direction is positive |
| Viewport.ZoomWidth | TCC_mapa_de_curitiba/main.py:459-468 | the new width lies in [min, max]; it is width times the factor when that product is inside, max when the product is above max, and min when it is below min |
| Viewport.ZoomDirection | TCC_mapa_de_curitiba/main.py:456-467 | from a width in bounds, zooming in never widens and zooming out never narrows, and the change is strict where no bound is reached |
| Viewport.ClampAxis | TCC_mapa_de_curitiba/main.py:477-488 | one axis of check_camera_bounds: the result is centred if the camera is at least the map's size and inside otherwise; a position already in bounds is kept; a camera past an edge lands on that edge |
| Viewport.ClampAxisIdempotent | TCC_mapa_de_curitiba/main.py:477-488 | clamping a clamped position changes nothing |
| Viewport.Camera.constructor | TCC_mapa_de_curitiba/main.py:377-378 | the camera starts as Rect(0,0,0,0) sized by recalculate_camera_aspect(): the covering width, the height from the aspect, centred on the origin and clamped |
| Viewport.Camera.Contains | TCC_mapa_de_curitiba/main.py:555 | camera.collidepoint is half-open: the top-left corner is inside a non-empty camera, the right and bottom edges are not, an empty camera holds nothing |
| Viewport.Camera.CheckBounds | TCC_mapa_de_curitiba/main.py:477-488 | the size is kept, each axis is clamped, the camera is in bounds afterwards, and a camera already in bounds does not move |
| Viewport.Camera.RecalculateAspect | TCC_mapa_de_curitiba/main.py:402-414 | the width is the one given or else the covering width; the height follows from the screen aspect; the centre is kept before clamping |
| Viewport.Camera.Resize | TCC_mapa_de_curitiba/main.py:501-504 | the new screen size is stored; a zero or negative side raises in the aspect division of recalculate_camera_aspect and leaves the rect as it was; otherwise the width is kept, the height comes from the new aspect, the centre is kept and then clamped |
| Viewport.Camera.HandleZoom | TCC_mapa_de_curitiba/main.py:452-475 | width is ZoomWidth with bounds [map width / 15, MaxCameraWidth], truncated; height from the aspect; origin re-anchored on the pointer, truncated and clamped |
| Viewport.Camera.Pan | TCC_mapa_de_curitiba/main.py:532-537 | the origin moves against the scaled drag delta, truncated, then clamped; the size is unchanged |
| Viewport.InitialCameraScenario | TCC_mapa_de_curitiba/main.py:402-414 | on the 900x720 window and the 16761x16910 fallback map the camera is 21137x16910 at x = -2188, y = 0 |
| Fog.ClearedStaysCleared | TCC_mapa_de_curitiba/main.py:53-72 | punching more discs keeps every cleared pixel cleared |
| Fog.LargerDiscCovers | TCC_mapa_de_curitiba/main.py:64-72 | a disc with the same centre and a radius at least as large contains the smaller one |
| Fog.FogMask.Punch | TCC_mapa_de_curitiba/main.py:60-71 | the punched disc is appended to the fog and nothing else changes |
| Fog.EasedRange | TCC_mapa_de_curitiba/main.py:65-66 | the cubic ease-out maps [0,1] into [0,1] and is strictly below 1 before the end |
| Fog.EasedMonotone | TCC_mapa_de_curitiba/main.py:65-66 | the cubic ease-out is monotone on [0,1] |
| Fog.GrowingRadiusBounded | TCC_mapa_de_curitiba/main.py:64-67 | while growing, the punched radius is between 0 and int(final_radius) |
| Fog.ProgressMonotone | TCC_mapa_de_curitiba/main.py:57-65 | elapsed / duration grows with elapsed time and stays in [0,1] up to the end |
| Fog.EasedRadiusMonotone | TCC_mapa_de_curitiba/main.py:66-67 | int(final_radius * eased_t) never decreases as the progress t grows within [0,1] |
| Fog.GrowingRadiusMonotone | TCC_mapa_de_curitiba/main.py:64-67 | a later tick never punches a smaller radius |
| Fog.RevealAnimation.constructor | TCC_mapa_de_curitiba/main.py:45-51 | an animation keeps its fog, centre and final radius, starts now, lasts 399 ms, and is not finished |
| Fog.RevealAnimation.DiscAt | TCC_mapa_de_curitiba/main.py:56-72 | the centre is the animation's; the radius is int(final_radius) once the duration has elapsed and the eased radius before |
| Fog.RevealAnimation.Update | TCC_mapa_de_curitiba/main.py:53-72 | once finished: returns false and punches nothing; otherwise it returns true, punches exactly DiscAt(now), and is finished iff the duration has elapsed |
| Fog.DiscAtBounded | TCC_mapa_de_curitiba/main.py:53-72 | every punched radius is at most the final radius, and exactly int(final_radius) at the end |
| Fog.LaterDiscCovers | TCC_mapa_de_curitiba/main.py:53-72 | whatever an earlier tick cleared, a later tick's disc clears again |
| Fog.FogMask.constructor | TCC_mapa_de_curitiba/main.py:364-370 | the fog surface starts with nothing punched |
| TextWrap.Split | TCC_mapa_de_curitiba/main.py:228 | str.split(' ') yields at least one piece and no piece holds a space |
| TextWrap.JoinSplit | TCC_mapa_de_curitiba/main.py:228 | ' '.join(text.split(' ')) == text |
| TextWrap.SplitJoin | TCC_mapa_de_curitiba/main.py:228 | splitting a join of space-free words gives the words back |
| TextWrap.StripLeftSuffix | TCC_mapa_de_curitiba/main.py:236-238 | lstrip keeps the suffix starting at the first non-whitespace character; everything cut is whitespace |
| TextWrap.StripRightPrefix | TCC_mapa_de_curitiba/main.py:236-238 | rstrip keeps the prefix ending at the last non-whitespace character; everything cut is whitespace |
| TextWrap.StripSlice | TCC_mapa_de_curitiba/main.py:236-238 | strip keeps one slice of the text, from the first to the last non-whitespace character; what is cut at either end is whitespace |
| TextWrap.StripTrimmed | TCC_mapa_de_curitiba/main.py:236-238 | what strip leaves is empty or starts and ends with non-whitespace, and it is empty iff the text is all whitespace |
| TextWrap.WrapText | TCC_mapa_de_curitiba/main.py:226-239 | at least one line; for single-space-separated words, only the first line may be empty, exactly when the first word does not fit; the non-empty lines rejoin to the text; every line is one word or fits; no line could have taken the next line's first word |
| Card.MaxScroll | TCC_mapa_de_curitiba/main.py:224 | max(0, total_height - 180): zero when the text fits, the overflow otherwise |
| Card.ScrollBy | TCC_mapa_de_curitiba/main.py:277-280 | the new offset lies in [0, max_scroll]; it is the moved offset where that is in range, else the nearer bound |
| Card.ScrollScenario | TCC_mapa_de_curitiba/main.py:276-280 | 820 px of text scroll 640 px at most; wheel notches move 20 px each, clamped at both ends |
| Card.SizeProgressComplete | TCC_mapa_de_curitiba/main.py:293-299 | min(elapsed / 200, 1.0) reaches 1.0 exactly when 200 ms have elapsed |
| Card.InfoCard.constructor | TCC_mapa_de_curitiba/main.py:178-202 | a new card is appearing since now, unscrolled, centred, with the wrapped description and max_scroll from its height |
| Card.InfoCard.UpdatePosition | TCC_mapa_de_curitiba/main.py:241-244 | the card rect is centred on the screen |
| Card.InfoCard.AdvanceAppearing | TCC_mapa_de_curitiba/main.py:289-299 | an appearing card becomes idle once 200 ms have elapsed; no other state changes, and the stage never goes back |
| Card.InfoCard.StartDisappearing | TCC_mapa_de_curitiba/main.py:246-249 | only an idle card starts disappearing, with its clock restarted; others are untouched |
| Card.InfoCard.Contains | TCC_mapa_de_curitiba/main.py:278 | final_rect.collidepoint is half-open: the top-left corner is on the card, the right and bottom edges are not |
| Card.InfoCard.ButtonContains | TCC_mapa_de_curitiba/main.py:509 | the button lies on the card: a point on the button is on the card, and the button's top-left corner is on it |
| Card.InfoCard.HandleScroll | TCC_mapa_de_curitiba/main.py:276-280 | with the pointer over the card the offset becomes ScrollBy, otherwise it is kept; 0 <= scroll_y <= max_scroll holds afterwards |
| Card.InfoCard.IsFinished | TCC_mapa_de_curitiba/main.py:251-252 | a card is finished only while disappearing and after more than 200 ms; an appearing or idle card is never finished |
| Card.StaysFinished | TCC_mapa_de_curitiba/main.py:251-252 | a card finished at some time is finished at every later time while its state is unchanged |
| Pois.InitialPoi | TCC_mapa_de_curitiba/main.py:416-421 | a set-up POI carries its index, position and text, is neither completed nor shaking, and is visible iff it is the first |
| Pois.StartShake | TCC_mapa_de_curitiba/main.py:171-174 | the shake starts, clock set to now, only for a POI neither shaking nor completed; otherwise nothing changes |
| Pois.ShakeOver | TCC_mapa_de_curitiba/main.py:139-141 | a shake is over only for a shaking POI, and not before 700 ms have elapsed |
| Pois.ShakeOverStays | TCC_mapa_de_curitiba/main.py:139-141 | a shake over at some time is over at every later time |
| Pois.Tick | TCC_mapa_de_curitiba/main.py:137-154 | a shake that has run 700 ms ends and the POI becomes completed; nothing else changes |
| Pois.ShakeCompletes | TCC_mapa_de_curitiba/main.py:137-174 | a shake started on a fresh POI completes it at the first tick 700 ms later, and a completed POI cannot be shaken again |
| Pois.ScanIndex | TCC_mapa_de_curitiba/main.py:440 | every scanned index is a valid index |
| Pois.ScanCovers | TCC_mapa_de_curitiba/main.py:439-440 | the n steps of the scan inspect every index |
| Pois.NextToReveal | TCC_mapa_de_curitiba/main.py:437-443 | a found POI is a valid index and not completed |
| Pois.NextToRevealSpec | TCC_mapa_de_curitiba/main.py:437-443 | the scan finds nothing iff every POI is completed; otherwise it finds the first POI after completed_index, cyclically, that is not completed |
| Pois.NextToRevealFrame | TCC_mapa_de_curitiba/main.py:437-443 | the search depends on the completion flags only |
| Pois.RevealRadiusFrame | TCC_mapa_de_curitiba/main.py:444-447 | uncovering POIs changes neither the next POI nor the reveal radius |
| Pois.RevealRadius | TCC_mapa_de_curitiba/main.py:445-448 | with no POI left to reveal the radius is 800; under a distance that dominates both axes it is always at least 150 |
| Pois.InRevealRect | TCC_mapa_de_curitiba/main.py:491-493 | collidepoint on the truncated square; nothing is inside when the radius is below 0.5 |
| Pois.RevealRectIntegral | TCC_mapa_de_curitiba/main.py:491-493 | with an integer radius the reveal square is exactly [c - r, c + r) on both axes |
| Pois.RevealRectNear | TCC_mapa_de_curitiba/main.py:491-493 | every point the square admits lies within radius + 1 of the centre on both axes |
| Pois.RevealRectReaches | TCC_mapa_de_curitiba/main.py:444-449 | a point within d of the centre on both axes is inside the square of radius d + 150 |
| Pois.Revealed | TCC_mapa_de_curitiba/main.py:492-494 | only visibility changes, and a POI is visible afterwards iff it was or lies in the square |
| Pois.NextIsRevealed | TCC_mapa_de_curitiba/main.py:436-450 | the square cleared around a completed POI always uncovers the POI chosen next |
| Game.Discs | TCC_mapa_de_curitiba/main.py:551 | one disc per animation, in list order, each the one that animation punches now |
| Game.StillGrowing | TCC_mapa_de_curitiba/main.py:552 | exactly the animations whose duration has not elapsed, no more than before |
| Game.Unfinished | TCC_mapa_de_curitiba/main.py:552 | the list comprehension keeps exactly the animations whose flag is not set |
| Game.UnfinishedIsStillGrowing | TCC_mapa_de_curitiba/main.py:551-552 | after every animation has ticked, the filter keeps exactly the still-growing ones, in order |
| Game.StillGrowingRunning | TCC_mapa_de_curitiba/main.py:552 | the kept animations are distinct, share the fog and are unfinished |
| Game.FirstUnfinished | TCC_mapa_de_curitiba/main.py:551 | the index of the first animation whose flag is not set, with all before it finished |
| Game.AdvanceRevealsAsWritten | TCC_mapa_de_curitiba/main.py:551-552 | as written: only the first unfinished animation ticks and punches; every other flag is unchanged; the finished are dropped |
| Game.AdvanceReveals | TCC_mapa_de_curitiba/main.py:551-552 | corrected: every animation punches its disc in order; each is finished iff its duration elapsed; the remaining ones are the still-growing ones |
| Game.SecondAnimationSkipped | TCC_mapa_de_curitiba/main.py:551 | two animations past their duration: as written, the second is left unfinished and only one disc is punched |
| Game.SecondAnimationAdvanced | TCC_mapa_de_curitiba/main.py:551-552 | the same two animations, corrected: both finish, two discs are punched, none remains |
| Game.RevealStepFrame | TCC_mapa_de_curitiba/main.py:490-494 | successive reveals only ever turn visibility on |
| Game.RevealedAfter | TCC_mapa_de_curitiba/main.py:490-500 | after a run of reveal events a POI differs only in visibility, and it is visible iff it was or one of the events' squares holds it |
| Game.PostedSound | TCC_mapa_de_curitiba/main.py:554-557 | every posted event names a POI inside the camera whose shake is over, with that POI's index and position |
| Game.PostedIncreasing | TCC_mapa_de_curitiba/main.py:554-557 | the posted events come in strictly increasing index order, the order of the POI group |
| Game.PostedComplete | TCC_mapa_de_curitiba/main.py:554-557 | every POI inside the camera whose shake is over has a posted event |
| Game.Game.constructor | TCC_mapa_de_curitiba/main.py:373-380 | no animation, no card, no drag; the given distance, font measure and line height are kept; the camera has the screen size, the covering width, the height from the aspect, and is centred then clamped on both axes; one POI per data entry with only the first visible |
| Game.Game.FindNextToReveal | TCC_mapa_de_curitiba/main.py:437-443 | the search loop returns NextToReveal: nothing iff all are completed, else a POI that is not completed |
| Game.Game.RevealPoisInArea | TCC_mapa_de_curitiba/main.py:490-494 | every POI becomes Revealed for the square; no other field and no other POI changes |
| Game.Game.TriggerSequentialReveal | TCC_mapa_de_curitiba/main.py:436-450 | exactly one fresh animation is appended, centred on the completed POI, started now, lasting the default 399 ms, with radius distance + 150 or 800; the square is revealed; the next POI ends up visible |
| Game.Game.HandleRevealEvent | TCC_mapa_de_curitiba/main.py:499-500 | one REVEAL_EVENT starts its 399 ms animation with RevealRadius and reveals its square, the next POI among it |
| Game.Game.HandleRevealEvents | TCC_mapa_de_curitiba/main.py:496-500 | the posted events in order: one 399 ms animation each, sized on the completion state they find, each uncovering its next POI; every POI ends as RevealedAfter the whole queue; the queue is left empty |
| Game.Game.UpdatePoi | TCC_mapa_de_curitiba/main.py:137-154 | the POI takes its Tick; a completion posts exactly one REVEAL_EVENT with the POI's index and position; other POIs are untouched |
| Game.Game.UpdatePois | TCC_mapa_de_curitiba/main.py:554-557 | exactly the POIs inside the camera take their Tick, the rest are untouched; the queue gains exactly the Posted events, in index order |
| Game.Game.DropFinishedCard | TCC_mapa_de_curitiba/main.py:546-549 | the card is closed iff it has finished disappearing |
| Game.Game.TickAnimations | TCC_mapa_de_curitiba/main.py:551-552 | corrected step (see ## Findings): the fog gains one disc per animation in order, and only the still-growing animations remain |
| Game.Game.UpdateAll | TCC_mapa_de_curitiba/main.py:544-557 | with the corrected step (see ## Findings): a finished card closes, the fog gains each animation's disc, the still-growing animations remain, the POIs in view tick, and the queue gains exactly the Posted events |
| Game.Game.TickAndUpdatePois | TCC_mapa_de_curitiba/main.py:551-557 | with the corrected step (see ## Findings): the fog gains each animation's disc, the still-growing animations remain, the POIs in view tick, and the queue gains exactly the Posted events |
| Game.Game.AdvanceCard | TCC_mapa_de_curitiba/main.py:293-299 | an open appearing card becomes idle after 200 ms, otherwise keeps its state; its clock, scroll and position never change |
| Game.Game.StartShakeAnimation | TCC_mapa_de_curitiba/main.py:171-174 | the chosen POI takes StartShake; the others are untouched |
| Game.Game.FindClickedPoi | TCC_mapa_de_curitiba/main.py:514-519 | the first visible POI in group order whose rect holds the click, or none when there is no such POI |
| Game.Game.OnMouseDown | TCC_mapa_de_curitiba/main.py:507-520 | idle card: the button shakes the card's POI and starts the card disappearing, elsewhere nothing. No card, left button: remembers the first visible POI hit, or starts a drag. Otherwise nothing changes. The card's scroll and position never change, nor its clock unless it starts disappearing |
| Game.Game.OnMouseUp | TCC_mapa_de_curitiba/main.py:521-527 | left button: a card for the remembered POI opens iff the pointer is still over it (there was no card before); the new card is appearing since now, unscrolled, centred on the screen, with the game's line height, max_scroll from its wrapped height, and lines that rejoin to the POI's description; drag and remembered POI are cleared |
| Game.Game.OnMouseMotion | TCC_mapa_de_curitiba/main.py:528-537 | a remembered POI turns into a drag; dragging without a card pans the camera; otherwise the camera stays; the camera size and screen size never change |
| Game.Game.PressMoveRelease | TCC_mapa_de_curitiba/main.py:507-537 | a press, a move and a release never open a card |
| Game.Game.PressRelease | TCC_mapa_de_curitiba/main.py:507-527 | press and release over the same visible POI, with no motion between, open that POI's card |
| Game.Game.OnMouseWheel | TCC_mapa_de_curitiba/main.py:538-542 | with a card open the wheel scrolls it and nothing else about the card or the camera changes; otherwise it zooms the camera, re-anchored on the pointer; the screen size never changes |
| Game.Game.OnResize | TCC_mapa_de_curitiba/main.py:501-506 | the camera takes the new screen size; a zero or negative side raises with the rect and the card unchanged; otherwise the width and centre are kept at the new aspect and an open card re-centres, keeping its state, clock and scroll |

## Left out

- Rendering, including `draw`, `draw_all`, subsurfaces, scaling, blits and alpha. This is presentation with no effect on the logic.
- The card's scale, alpha and border easing values. The button's hover colour in `InfoCard.update`. The POI fill colour. Only the card's state transitions are kept.
- Pixel rasterisation of the fog. These are pygame calls whose pixel footprint is not visible, so the fog is the list of discs handed to `filled_circle` and `aacircle`. The outline drawn by `aacircle` over the same disc is folded into the one punch.
- Asset loading, fonts, icons, `resource_path` and their fallbacks. This is I/O. The map size, the screen size and the POI data are parameters of the constructors.
- The shake jitter. It is random and only moves the on-screen rect.
- Screen rects of the POIs. Clicks are described by the set of POI indices whose rect holds the pointer.
- The pygame event queue, QUIT, the clock and `run`. `HandleRevealEvents` handles the posted reveal events in posting order, after the update that posted them, as the source does. The model does not capture how these events interleave with input events arriving in the same batch.
- `Vector2.distance_to` is square-root arithmetic on floats, so the distance is an abstract function. Its only assumption is that it is at least the difference along either axis.
- `pow` is modelled as an exact cube over reals. Floating-point rounding is not modelled anywhere.
- TextWrap.WrapText: its guarantees about rejoining and line shape are stated only for text made of words separated by single spaces with no other whitespace. For other text the model still runs the same loop, but only promises at least one line.
- `str.strip()` is modelled for the characters Python treats as whitespace: tab, line feed, vertical tab, form feed, carriage return, U+001C to U+001F, space, U+0085, U+00A0, U+1680, U+2000 to U+200A, U+2028, U+2029, U+202F, U+205F and U+3000.
- Viewport.Camera.Resize and Game.Game.OnResize: the ZeroDivisionError is modelled as a `raised` result that leaves the camera rect and the card untouched. The program stops at that point, so nothing after it is modelled. pygame never reports a negative side, and the model treats one like a zero side.

## Findings

| source | as written | input that shows it | evidently intended | confidence | as-written member | corrected member |
|---|---|---|---|---|---|---|
| TCC_mapa_de_curitiba/main.py:551 | `any(anim.update() for anim in self.reveal_animations)` stops at the first `True`, and `update()` answers `True` for every unfinished animation, so only the first running animation advances each frame | two reveals started at time 0 and ticked at 1000 ms: the second stays unfinished, its disc is not punched, and it stays in the list | every running animation advances each frame | high (not executed) | Game.AdvanceRevealsAsWritten, Game.SecondAnimationSkipped | Game.AdvanceReveals, Game.SecondAnimationAdvanced |
