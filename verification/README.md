# Chrono-Glitch player simulation, in Dafny

This project models the player simulation of the Chrono-Glitch platformer
prototype (`src/main.py`). The player is a 40x50 box with a horizontal walking
velocity `change_x` and a vertical velocity `change_y`. Each frame the game
loop handles the queued key events and then advances the player by one tick:

- gravity (`calc_grav`) restarts a fall at 1 pixel per tick when the vertical
  velocity is exactly zero, and otherwise adds 0.45;
- the box moves by `change_x` and is clamped against each overlapping
  platform in turn, so along x the last one decides;
- it then moves by `change_y` and is clamped the same way, but along y the
  first one decides. Any vertical hit zeroes `change_y`.

The jump probes two pixels below the box for a platform. Left arrow/A sets the
walking velocity to -6 and right arrow/D sets it to 6. Up arrow, W and space
jump. Every other key does nothing. Releasing a key stops the walk only when
the key matches the current direction. The level is three fixed platforms.

Everything is a pure function over immutable values:

- `Geometry`: `Rect` with pygame's edge setters (`left`, `right`, `top`,
  `bottom` move the box and keep its size), and the strict overlap test.
  Rectangles that only share an edge do not collide.
- `Collision`: the sprite collision query as an order-preserving filter of a
  `seq` of platforms, and its relation to the first and last overlapping
  platform in list order.
- `Physics`: the `Player` record, gravity, the two collision passes, the
  whole tick, the jump and the three input handlers.
- `Input`: keys, events, the key-press and key-release handlers, event-queue
  processing (quit ends the game) and one frame.
- `Level01`: the platform table of the first level and scenarios that start
  from it.

Vertical velocity and positions are `real`, so 0.45 is exact.

### Behaviour the proofs make explicit

- Horizontal resolution applies every overlapping platform in list order, so
  the LAST one decides (`HorizontalPassRight`, `HorizontalPassLeft`). That
  platform need not be the nearest one. The box can then still overlap an
  earlier platform (`HorizontalPassLastWins`).
- Vertical resolution zeroes `change_y` inside its loop. Every platform after
  the first then sees a velocity of zero and is ignored, so the FIRST
  overlapping platform decides (`VerticalPassDown`, `VerticalPassUp`). The box
  can still overlap a later platform (`VerticalPassFirstWins`).
- The new player starts with `change_y` 0, so its first tick restarts gravity
  at 1 with nothing in contact. Once the player is moving vertically, only a
  collision brings `change_y` back to 0: a jump's velocity -12 + 0.45 k never
  reaches exactly zero (`JumpArcNeverRestartsGravity`), and a fall's speed
  1 + 0.45 (n - 1) stays positive (`FallFromRest`).
- With exact real positions, the new player falls for 13 ticks and lands on
  the floor on the 14th. After that it stays put (`StartFallsOntoFloor`,
  `FloorIsRest`).

## Model

| member | source | states |
|---|---|---|
| Geometry.Rect.WithRight | src/main.py:31 | assigning the right edge moves the box so that its right edge is the given value; y and size are kept |
| Geometry.Rect.WithLeft | src/main.py:33 | assigning the left edge moves the box so that its left edge is the given value; y and size are kept |
| Geometry.Rect.WithBottom | src/main.py:40 | assigning the bottom edge moves the box so that its bottom is the given value; x and size are kept |
| Geometry.Rect.WithTop | src/main.py:42 | assigning the top edge moves the box so that its top is the given value; x and size are kept |
| Geometry.OverlapsIsSharedInterior | src/main.py:28 | the collision test used by every sprite query: two boxes of positive size collide exactly when some point lies strictly inside both |
| Geometry.TouchingVerticallyIsNoOverlap | src/main.py:37-42 | a box whose bottom lies on another's top (or top on another's bottom) does not collide with it |
| Geometry.TouchingHorizontallyIsNoOverlap | src/main.py:28-33 | a box whose right edge lies on another's left edge (or the reverse) does not collide with it |
| Collision.SpriteCollide | src/main.py:28 | a platform is in the hit list exactly when it is in the group and overlaps the box; the list is no longer than the group and is empty exactly when none overlaps |
| Collision.HitListStartsAtFirstOverlap | src/main.py:37-38 | the first entry of the hit list is the first platform, in the group's order, that overlaps the box |
| Collision.HitListEndsAtLastOverlap | src/main.py:28-29 | the last entry of the hit list is the last platform, in the group's order, that overlaps the box |
| Physics.NewPlayer | src/main.py:11-20 | a new player is a 40x50 box with left edge 100 and bottom 100 pixels above the 720-pixel screen bottom, with both velocities 0 |
| Physics.CalcGrav | src/main.py:45-49 | a vertical velocity of exactly 0 becomes 1; any other grows by exactly 0.45; position and change_x are untouched |
| Physics.FallFromRest | src/main.py:45-49 | n gravity steps from rest give velocity `FallSpeed(n)`: 0 for n = 0, else 1 + 0.45 (n - 1); position and change_x are untouched |
| Physics.JumpArcNeverRestartsGravity | src/main.py:45-57 | from the jump velocity -12, n gravity steps give -12 + 0.45 n, which is never 0, so mid-air gravity never restarts at 1 |
| Physics.MoveX | src/main.py:26 | the box moves right by change_x (left when it is negative) and keeps y and size; both velocities are kept |
| Physics.ClampX | src/main.py:29-33 | over a hit list, moving right puts the right edge on the LAST hit's left edge; moving left puts the left edge on its right edge; no hits or change_x = 0 leave the player unchanged; y, size and velocities are kept |
| Physics.HorizontalPass | src/main.py:26-33 | with no overlap after the move, x becomes x + change_x; y, size and both velocities never change; change_x = 0 leaves the box where it was |
| Physics.HorizontalPassRight | src/main.py:26-31 | moving right, the right edge ends on the left edge of the last overlapping platform in list order, and the box no longer overlaps it |
| Physics.HorizontalPassLeft | src/main.py:26-33 | moving left, the left edge ends on the right edge of the last overlapping platform in list order, and the box no longer overlaps it |
| Physics.HorizontalPassBlocked | src/main.py:26-33 | whenever the moved box overlaps some platform and change_x is not 0, there is a last overlapping platform in list order and the box ends flush against it on the side it walked into |
| Physics.HorizontalPassLastWins | src/main.py:28-33 | an earlier overlapping platform that starts left of the last one still overlaps the box after moving right |
| Physics.MoveY | src/main.py:35 | the box moves down by change_y (up when it is negative) and keeps x and size; both velocities are kept |
| Physics.ClampY | src/main.py:38-43 | over a hit list, any hit sets change_y to 0; moving down puts the bottom on the FIRST hit's top, moving up puts the top on its bottom; no hits leave the player unchanged; x, size and change_x are kept |
| Physics.VerticalPass | src/main.py:35-43 | an overlap after the y move sets change_y to 0 whatever the direction; no overlap leaves exactly the moved player, with the gravity-adjusted change_y |
| Physics.VerticalPassDown | src/main.py:35-43 | falling, the bottom ends on the top of the first overlapping platform, change_y is 0 and the two no longer overlap |
| Physics.VerticalPassUp | src/main.py:35-43 | rising, the top ends on the bottom of the first overlapping platform, change_y is 0 and the two no longer overlap |
| Physics.VerticalPassBlocked | src/main.py:35-43 | whenever the moved box overlaps some platform and change_y is not 0, there is a first overlapping platform in list order and the box ends flush against it on the side it moved into |
| Physics.VerticalPassFirstWins | src/main.py:38-43 | a later overlapping platform whose top is above the first one's still overlaps the box after falling |
| Physics.Update | src/main.py:23-43 | a tick never changes change_x or the box's size, and leaves change_y either 0 or the gravity-adjusted value |
| Physics.RestingIsFixedPoint | src/main.py:23-49 | a player at rest whose bottom is the top of the first platform one pixel below is unchanged by a tick |
| Physics.RestingStays | src/main.py:23-49 | a resting player is unchanged by any number of ticks without input |
| Physics.Jump | src/main.py:51-57 | the position never changes; change_y becomes -12 when a platform overlaps the box shifted 2 pixels down, otherwise the player is unchanged |
| Physics.RestingCanJump | src/main.py:51-57 | a 40x50 player resting on a platform of positive height always finds it with the jump probe |
| Physics.GoLeft | src/main.py:59-60 | change_x becomes -6 and nothing else changes |
| Physics.GoRight | src/main.py:62-63 | change_x becomes 6 and nothing else changes |
| Physics.Stop | src/main.py:65-66 | change_x becomes 0 and nothing else changes |
| Input.OnKeyDown | src/main.py:133-139 | left/A press is go_left, right/D press is go_right, up/W/space press is the jump, any other key changes nothing |
| Input.OnKeyUp | src/main.py:141-145 | releasing left/A while moving left or right/D while moving right stops the walk; any other release changes nothing |
| Input.OppositeReleaseKeepsWalking | src/main.py:141-145 | releasing a key that is not the current walking direction leaves the player unchanged |
| Input.PressBothReleaseFirst | src/main.py:133-145 | pressing one direction, then the other, then releasing the first, walks in the second direction |
| Input.PressThenReleaseStops | src/main.py:133-145 | pressing and then releasing the same direction stops the walk |
| Input.HandleEvents | src/main.py:128-145 | processing a frame's events ends the game exactly when a quit event is among them |
| Input.Frame | src/main.py:127-148 | a frame ends the game exactly when a quit event is queued; a frame with no events is one tick |
| Input.HandleEventsKeepsInvariant | src/main.py:128-145 | event handling keeps the 40x50 size and a walking velocity of -6, 0 or 6 |
| Input.FrameKeepsInvariant | src/main.py:127-148 | a whole frame keeps the 40x50 size and a walking velocity of -6, 0 or 6 |
| Level01.PlatformOf | src/main.py:97-100 | a table row (width, height, x, y) becomes a platform with top-left corner (x, y) and bottom-right corner (x + width, y + height) |
| Level01.BuildPlatforms | src/main.py:97-102 | the platform list has one platform per row, in table order |
| Level01.TableBuildsPlatforms | src/main.py:91-102 | the first level's table yields the floor (0, 670, 500x50) and ledges (600, 540, 200x50) and (900, 370, 250x50), in that order |
| Level01.StartInTheAir | src/main.py:16-17 | the new player overlaps nothing two pixels below itself, so a jump at start-up does nothing |
| Level01.FreeFall | src/main.py:23-49 | above the floor, a tick that keeps the bottom at or above the floor's top moves the player down by the gravity-adjusted velocity |
| Level01.FallDistanceClosedForm | src/main.py:35-49 | the distance fallen in n ticks from rest, the sum of the per-tick speeds 1, 1.45, 1.9, ..., is n + 0.45 n (n - 1) / 2 |
| Level01.FreeFallTick | src/main.py:23-49 | above the floor, the tick after k ticks of fall from height y is the state after k + 1 ticks of fall |
| Level01.FreeFallFromRest | src/main.py:23-49 | with exact real positions, falling from rest above the floor, after n ticks the player has dropped n + 0.45 n (n - 1) / 2 pixels and falls at 1 + 0.45 (n - 1) |
| Level01.LandOnFloor | src/main.py:35-43 | a tick that would take the bottom past the floor's top puts the player on the floor at rest |
| Level01.StartFallsThirteenTicks | src/main.py:11-49 | with exact real positions, 13 idle ticks take the new player from y = 570 to y = 618.1, falling at 6.4 pixels per tick |
| Level01.StartFallsOntoFloor | src/main.py:11-49 | with exact real positions, the new player is still above the floor after 13 idle ticks and rests on it after 14 |
| Level01.FloorIsResting | src/main.py:91-95 | the player standing on the floor is at rest on platform 0 |
| Level01.FloorIsRest | src/main.py:23-49 | the player on the floor stays there for any number of idle ticks |
| Level01.JumpFromFloor | src/main.py:51-57 | standing on the floor, a jump sets change_y to -12 |

## Left out

- Level01.StartFallsOntoFloor, Level01.StartFallsThirteenTicks and Level01.FreeFallFromRest hold for exact real positions only: with whole-pixel rectangles each `rect.y += change_y` drops the fraction, the start-up fall lands one tick later (on tick 15) and the drop after n ticks is not the closed form n + 0.45 n (n - 1) / 2.
- Integer coordinates: pygame's `Rect` stores whole pixels and coerces the fractional `y + change_y`. That coercion is pygame's behaviour, not this program's, so positions are kept `real` and no coercion is modelled.
- Floating point: `change_y` is a Python float, so repeated `+= 0.45` rounds. The model uses exact reals.
- Degenerate rectangles: pygame treats zero-width or zero-height rectangles as colliding with nothing. Every rectangle in the game has positive size, so the model uses plain strict overlap.
- Rendering and presentation: surfaces, colours, `Level.draw`, `display.flip`, window setup and the caption. None of it changes simulation state.
- The event loop itself, `Clock.tick(60)` pacing, `pygame.quit()` and `sys.exit()`. Key events are abstract inputs to `HandleEvents`, and a quit event yields the `Exited` outcome.
- pygame's `Sprite`/`Group` machinery. Platforms are a `seq` in insertion order, the order a group yields them. `Level.update` only calls the platforms' inherited `update`, which does nothing.
- The player's `level` back-reference and the one-element level list: the platform list is passed to each operation as a parameter.
- Rewind history, the glitch director, gravity inversion and control scrambling do not exist in `src/main.py`. They are not modelled.
