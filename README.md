# Game logic of the pygame-ios RPG example, in Dafny

This project models the game logic of the example script
`src/pygame_ios/examples/rpg.py`. That script is a small top-down pixel-art game
built on a Sprite Fusion tilemap. The model covers:

- **Tilemap** (`tilemap.dfy`): the map as already-parsed data (tile size, then
  layers of tiles). It covers the spritesheet source cell of a tile id, which uses
  Python's `%` and `//` (`pyint.dfy`), and the list of blits `draw_tilemap` makes.
  It also covers the collision boxes `create_tilemap_collision` builds from collider
  layers, and the first-match search `get_player_spawn` does.
- **Input** (`input.dfy`): the finger-event state machine of the on-screen
  joystick, where one finger owns the joystick at a time and `-1` means free. It
  also covers the desktop keyboard rule, where for each axis opposite keys cancel.
- **Collision** (`collision.dfy`): the axis-separated collision passes. The
  hitbox moves along one axis and is pushed out of every collision box it
  overlaps, in list order.
- **Animation** (`animation.dfy`): the frame table, the named animations, the key
  built from a movement prefix and a direction suffix, and the per-frame update of
  the animation index and timer.
- **Game** (`game.dfy`): a `GameState` class. It holds the script's module-level
  variables as fields, and its methods are the steps of the `while running` loop.
  A method proved against a pure function states each step's new state.

Positions and rectangles use exact `real`s. `Vector2.clamp_magnitude`,
`normalize` and `angle` are supplied by the caller as a `FloatOps` value, because
their floating-point results are not modelled. Comparisons against
`length()` are made on the squared length, which is exact for reals.
`colliderect` is modelled as open-interval overlap. That is pygame's behaviour
for boxes of positive size.

## Model

| member | source | states |
|---|---|---|
| PyInt.Mod | src/pygame_ios/examples/rpg.py:42 | Python's `%`: the remainder lies in `[0, b)` for a positive divisor and in `(b, 0]` for a negative one |
| PyInt.FloorDiv | src/pygame_ios/examples/rpg.py:43 | Python's `//`: `b * (a // b) + a % b == a` |
| PyInt.DivModUnique | src/pygame_ios/examples/rpg.py:42-43 | the quotient and remainder are the only pair satisfying that identity with the remainder in Python's range |
| Tilemap.SourceCell | src/pygame_ios/examples/rpg.py:42-43 | the source cell fails with a division error exactly when the sheet is zero tiles wide; for `W > 0` and `T >= 0` the x pixel lies in `[0, (W-1)*T]`, and the y pixel is non-negative for a non-negative id |
| Tilemap.SourceCellRoundTrip | src/pygame_ios/examples/rpg.py:42-43 | both source pixels are multiples of the tile size, and `id == (srcy/T)*W + srcx/T` |
| Tilemap.SourceCellOfGridCell | src/pygame_ios/examples/rpg.py:42-43 | the tile in column `col < W` and row `row` has source cell `(col*T, row*T)` |
| Tilemap.DrawTile | src/pygame_ios/examples/rpg.py:42-52 | one tile's blit, at `pos + (x*T, y*T)` with the `T×T` source area at `SourceCell`; no contract of its own, specified by `DrawTilesEach` and `SourceCell` |
| Tilemap.DrawTiles | src/pygame_ios/examples/rpg.py:41-52 | the tiles of one layer in order, failing on the first failing tile; no contract of its own, specified by `DrawTilesEach` |
| Tilemap.DrawLayer | src/pygame_ios/examples/rpg.py:40-52 | a layer's blits, none for `entities`; no contract of its own, specified by `DrawSkipsEntities` and `DrawLayerOk` |
| Tilemap.DrawLayers | src/pygame_ios/examples/rpg.py:39-52 | the blits of the layers, last layer first; no contract of its own, specified by `DrawLayersReversed`, `DrawLayersOk` and `DrawTilemapFails` |
| Tilemap.DrawTilemap | src/pygame_ios/examples/rpg.py:36-52 | `draw_tilemap`: the blits of the map's layers at the camera offset `pos`, or the division error; no contract of its own, specified by `DrawTilemapFails` |
| Tilemap.DrawTilesEach | src/pygame_ios/examples/rpg.py:41-52 | with a non-zero sheet width, a layer's tiles give one blit each, in order, each taking a `T×T` area at the tile's source cell |
| Tilemap.DrawTilemapFails | src/pygame_ios/examples/rpg.py:39-43 | drawing raises exactly when the sheet width is zero and some layer other than `entities` has a tile |
| Tilemap.DrawLayersReversed | src/pygame_ios/examples/rpg.py:39 | layers are drawn last to first: drawing `a + b` draws `b` and then `a` |
| Tilemap.DrawLayerOk | src/pygame_ios/examples/rpg.py:40-52 | with a non-zero sheet width, drawing one layer never raises |
| Tilemap.DrawLayersOk | src/pygame_ios/examples/rpg.py:39-52 | with a non-zero sheet width, drawing any list of layers never raises |
| Tilemap.DrawSkipsEntities | src/pygame_ios/examples/rpg.py:40 | the `entities` layer adds no blit |
| Tilemap.TileRect | src/pygame_ios/examples/rpg.py:60-65 | the `T×T` box at `(x*T, y*T)`; no contract of its own, used by `CollisionRectsSound` and `CollisionRectsComplete` |
| Tilemap.LayerRects | src/pygame_ios/examples/rpg.py:58-66 | one box per tile of a collider layer, none for another layer; no contract of its own, specified by `NonColliderAddsNothing` and `CollisionRectsOrder` |
| Tilemap.CollisionRects | src/pygame_ios/examples/rpg.py:55-67 | `create_tilemap_collision` as a function: the boxes layer by layer; no contract of its own, specified by `CollisionRectsCount`, `CollisionRectsSound`, `CollisionRectsComplete` and `CollisionRectsOrder`, and computed by `CreateTilemapCollision` |
| Tilemap.CreateTilemapCollision | src/pygame_ios/examples/rpg.py:55-67 | the nested append loops produce exactly the boxes of the collider layers, layer by layer and tile by tile |
| Tilemap.CollisionRectsAppend | src/pygame_ios/examples/rpg.py:57-66 | the boxes of `a + b` are the boxes of `a` followed by those of `b` |
| Tilemap.CollisionRectsOrder | src/pygame_ios/examples/rpg.py:57-66 | layer `i`'s boxes, in tile order, sit between the boxes of the earlier and the later layers |
| Tilemap.NonColliderAddsNothing | src/pygame_ios/examples/rpg.py:58 | a layer whose `collider` is false contributes no box |
| Tilemap.CollisionRectsCount | src/pygame_ios/examples/rpg.py:55-67 | the number of boxes equals the number of tiles on collider layers |
| Tilemap.CollisionRectsSound | src/pygame_ios/examples/rpg.py:60-65 | every box is a `T×T` square at `(x*T, y*T)` for some tile of a collider layer |
| Tilemap.CollisionRectsComplete | src/pygame_ios/examples/rpg.py:58-66 | every tile of a collider layer has its box in the list |
| Tilemap.TileType | src/pygame_ios/examples/rpg.py:75 | `tile["attributes"]["type"]`, a `KeyError` when either key is missing; no contract of its own, specified through `ScanTilesFirstStop` |
| Tilemap.ScanTiles | src/pygame_ios/examples/rpg.py:74-79 | the search through one layer's tiles; no contract of its own, specified by `ScanTilesFirstStop` |
| Tilemap.ScanLayers | src/pygame_ios/examples/rpg.py:72-79 | the search layer by layer; no contract of its own, specified by `ScanLayersIsFlat` |
| Tilemap.GetPlayerSpawn | src/pygame_ios/examples/rpg.py:71-80 | `get_player_spawn`; no contract of its own, specified by `GetPlayerSpawnSpec` |
| Tilemap.ScanTilesAppend | src/pygame_ios/examples/rpg.py:74-79 | searching `a + b` gives the result on `a` unless the search ran through `a`, in which case it is the search on `b` |
| Tilemap.ScanLayersIsFlat | src/pygame_ios/examples/rpg.py:72-75 | searching layer by layer equals searching the concatenated tiles of the `entities` layers |
| Tilemap.ScanTilesFirstStop | src/pygame_ios/examples/rpg.py:74-79 | the search stops at the first tile that is the spawn or has no `attributes.type`, and reaches the end exactly when every tile has a type other than `player_spawn` |
| Tilemap.GetPlayerSpawnSpec | src/pygame_ios/examples/rpg.py:71-80 | the result is the scaled position of the first `player_spawn` entity tile, a `KeyError` if a type lookup before it fails, and `(0,0)` when there is no spawn tile |
| Tilemap.EntityTilesMembers | src/pygame_ios/examples/rpg.py:72-74 | the tiles searched are exactly those of layers named `entities` |
| Collision.Snap | src/pygame_ios/examples/rpg.py:313-317 | one box of a pass: if it overlaps, `right := tile.left` (or `bottom := tile.top`) when moving forward, otherwise `left := tile.right` (or `top := tile.bottom`); no contract of its own, specified by `SnapSeparates` |
| Collision.Sweep | src/pygame_ios/examples/rpg.py:312-318 | the loop over `map_collisions` in order; no contract of its own, specified by the `Sweep…` lemmas |
| Collision.SnapSeparates | src/pygame_ios/examples/rpg.py:313-317 | after snapping against an overlapping box, the hitbox no longer overlaps it and touches it: only its position along the axis changes, and moving forward its far edge lies on the box's near edge, otherwise its near edge on the box's far edge |
| Collision.SweepMovesOnlyAlong | src/pygame_ios/examples/rpg.py:309-329 | a pass changes only the hitbox's position along its own axis; so the Y pass never changes X, and the size stays |
| Collision.SweepPushesBack | src/pygame_ios/examples/rpg.py:314-317 | collisions only push back: moving right or down never ends further right or down than the moved-to position, and otherwise never further left or up |
| Collision.SweepClearOfLast | src/pygame_ios/examples/rpg.py:312-318 | at the end of a pass the hitbox does not overlap the last box |
| Collision.SweepRestsOnEdge | src/pygame_ios/examples/rpg.py:312-318 | after a pass the hitbox is unmoved or flush against a box: its right/bottom edge on the box's left/top when moving forward, its left/top edge on the box's right/bottom otherwise |
| Collision.SweepWithoutContact | src/pygame_ios/examples/rpg.py:312-313 | a hitbox that overlaps no box stays where it is |
| Animation.FramesInBounds | src/pygame_ios/examples/rpg.py:136-164 | every animation is non-empty, and every frame number is below 12 = `len(player_srcrects)` |
| Animation.SrcRectsAreSheetCells | src/pygame_ios/examples/rpg.py:136-152 | frame `i` is the source cell of id `i` on a 4-column sheet of 16-pixel cells |
| Animation.Suffix | src/pygame_ios/examples/rpg.py:346-353 | `up` iff the angle is in (-135,-45), `right` iff in [-45,45], `down` iff in (45,135), `left` iff at most -135 or at least 135; so exactly one suffix per angle |
| Animation.Prefix | src/pygame_ios/examples/rpg.py:355-358 | the prefix is `walk` or `idle` |
| Animation.PrefixByLength | src/pygame_ios/examples/rpg.py:355-358 | for the input vector's length `len`, the prefix is `walk` iff `len > 0.01` |
| Animation.KeyInAnimSet | src/pygame_ios/examples/rpg.py:155-164 | the composed key, for any angle and input, is a key of `player_anim_set` |
| Animation.KeyDeterminesParts | src/pygame_ios/examples/rpg.py:360-362 | two keys are equal iff their prefixes and their suffixes are equal |
| Animation.InitialConsistent | src/pygame_ios/examples/rpg.py:133-169 | the start-up values (key `walkdown`, index 0) satisfy the animation invariant |
| Animation.Key | src/pygame_ios/examples/rpg.py:360 | the key is the prefix followed by the suffix; no contract of its own, specified by `KeyInAnimSet` and `KeyDeterminesParts` |
| Animation.Advance | src/pygame_ios/examples/rpg.py:337-365 | the animation block of one frame; no contract of its own, specified by `AdvanceKeepsConsistent` and `AdvanceSteps` |
| Animation.AdvanceKeepsConsistent | src/pygame_ios/examples/rpg.py:337-365 | after every frame the key is in `player_anim_set` and the index is below its animation's length |
| Animation.AdvanceSteps | src/pygame_ios/examples/rpg.py:337-365 | a key change resets index and timer to 0; an unchanged key steps the index cyclically when the timer passes 0.15 and otherwise keeps it |
| Animation.FrameRect | src/pygame_ios/examples/rpg.py:390-391 | the frame drawn is one of `player_srcrects`: a 16×16 cell inside the 64×48 sheet |
| Input.OnEvent | src/pygame_ios/examples/rpg.py:225-266 | the effect of one event on the controls; no contract of its own, specified by `FingerRules` |
| Input.OnEvents | src/pygame_ios/examples/rpg.py:224-266 | the event loop of one frame, first event to last; no contract of its own, specified by `OwnerKeeps`, `OtherFingersIgnored`, `OwnerWentDown`, `QuitStops`, `RestKept` and `KnobStaysInReach` |
| Input.FingerRules | src/pygame_ios/examples/rpg.py:229-266 | FINGERDOWN claims the joystick only when it is free; FINGERMOTION and FINGERUP from a non-owner change nothing; the owner's motion sets facing to the input and starts footsteps; the owner's FINGERUP restores `-1`, the rest position, zero input and `footstep_active = False` |
| Input.OwnerKeeps | src/pygame_ios/examples/rpg.py:229-266 | a finger that owns the joystick keeps it through any events until that finger is lifted |
| Input.OtherFingersIgnored | src/pygame_ios/examples/rpg.py:229-266 | while a finger owns the joystick, any run of events from other fingers changes nothing |
| Input.OwnerWentDown | src/pygame_ios/examples/rpg.py:229-232 | the owner after a run of events is the old owner, nobody, or a finger that went down during the run |
| Input.QuitStops | src/pygame_ios/examples/rpg.py:225-226 | the game stops running exactly when a QUIT event arrives |
| Input.RestKept | src/pygame_ios/examples/rpg.py:218-219 | a free joystick stays at its rest position with the knob centred, as long as no event uses the id `-1` |
| Input.KnobStaysInReach | src/pygame_ios/examples/rpg.py:247-250 | given a clamp that respects its bound, the knob never moves more than `max_knob_distance` from the base |
| Input.KeyboardDir | src/pygame_ios/examples/rpg.py:275-300 | the per-axis key vector, `(AxisValue(left, right), AxisValue(up, down))`; no contract of its own, specified by `AxisValue` and computed by `ResolveKeys` |
| Input.AxisValue | src/pygame_ios/examples/rpg.py:280-300 | per axis, both keys or neither give 0, only the negative key gives -1, only the positive key gives +1 |
| Input.OnKeyboard | src/pygame_ios/examples/rpg.py:271-307 | the keyboard block never touches `running` or the joystick; `footstep_active` holds iff some axis is non-zero; with no net key the input is zero and the facing is kept, otherwise the facing is the new input |
| Input.FrameInput | src/pygame_ios/examples/rpg.py:224-307 | the input half of a frame: the game stops exactly on a QUIT; the owning finger and joystick are those the events leave; without the keyboard it is exactly the events' effect; a free joystick stays at rest when no event uses id `-1` |
| Input.ResolveKeys | src/pygame_ios/examples/rpg.py:273-301 | the branch chains compute the per-axis vector, and `moved` is true iff some axis is non-zero |
| Game.Pass | src/pygame_ios/examples/rpg.py:309-329 | one collision pass changes only the position along its axis, leaves the player at the hitbox's offset, and never ends further along the motion than the moved-to position |
| Game.Moved | src/pygame_ios/examples/rpg.py:309-329 | the X pass then the Y pass; no contract of its own, specified by `MovedAtOffsets` and `Pass` |
| Game.MovedAtOffsets | src/pygame_ios/examples/rpg.py:309-329 | after the X and the Y pass the player is at `hitbox - (3, 6)` and the hitbox keeps its size |
| Game.GameState.constructor | src/pygame_ios/examples/rpg.py:133-219 | start-up values: free joystick at rest, zero input, facing down, animation `walkdown` at 0, a 10×10 hitbox at the spawn |
| Game.GameState.HandleEvent | src/pygame_ios/examples/rpg.py:225-266 | one event updates the control variables as the event rules say and nothing else |
| Game.GameState.HandleEvents | src/pygame_ios/examples/rpg.py:224-266 | the event loop applies the events of a frame in order |
| Game.GameState.ApplyKeyboard | src/pygame_ios/examples/rpg.py:271-307 | the new control variables are exactly the keyboard block's result; position, hitbox and animation are untouched |
| Game.GameState.MoveAndCollide | src/pygame_ios/examples/rpg.py:309-329 | the new position and hitbox are exactly one collision pass: the sweep from the moved hitbox, with the position at the hitbox minus the axis offset (+3 on X, +6 on Y); the Y pass leaves X alone; controls and animation are untouched |
| Game.GameState.Animate | src/pygame_ios/examples/rpg.py:337-365 | the animation variables take their next values and stay consistent |
| Game.GameState.CurrentFrame | src/pygame_ios/examples/rpg.py:390-391 | the frame is `Animation.FrameRect` of the current animation state: the lookup `player_srcrects[player_anim_set[key][index]]` is in bounds and gives one of `player_srcrects`, a 16×16 frame |
| Game.GameState.ReadInput | src/pygame_ios/examples/rpg.py:223-307 | the new control variables are exactly the frame's events followed, off iOS, by the keyboard block; position, hitbox and animation are untouched |
| Game.GameState.Move | src/pygame_ios/examples/rpg.py:309-329 | the new position and hitbox are the X pass followed by the Y pass, so `player_pos == hitbox - (3, 6)`; controls and animation are untouched |
| Game.GameState.Frame | src/pygame_ios/examples/rpg.py:222-365 | one loop iteration: the controls after events and keyboard, the position and hitbox after both passes with the new input, and the next animation state from the new facing's angle; the animation invariant and the hitbox size are kept; `running` drops only on QUIT |
| Game.StartGame | src/pygame_ios/examples/rpg.py:105-173 | start-up builds the collision boxes and places the player and a 10×10 hitbox at the spawn, with a free joystick at rest, zero input, facing down and the `walkdown` animation at 0; a `KeyError` in the spawn search stops it |

## Left out

- Rendering, the display and its surfaces, `blit`/`fblits`, canvas scaling, the health pips and the joystick drawing (rpg.py:84-130, 384-407). These are calls into pygame. The model keeps only the list of blits `draw_tilemap` makes.
- Tilemap.DrawTilemap: the blit destinations are not rounded with `round()`, because that is floating-point behaviour.
- Music, the footstep sounds, `random.choice`, and the footstep timer (rpg.py:176-188, 331-335). This is audio and real-time behaviour.
- `clock.tick` (rpg.py:268). The frame time `dt` is a parameter of `Frame` and `Animate`.
- The iOS window and safe-area lookup through rubicon-objc (rpg.py:13-33, 198-211). These are native calls. The adjusted joystick rest position is a constructor parameter.
- Camera clamping (rpg.py:367-382). It relies on `pygame.math.clamp`, whose behaviour when the lower bound exceeds the upper one is not part of this model.
- JSON loading (rpg.py:106-107), and `int()` on tile ids as parsing. The map arrives parsed, with ids as integers. Only the `attributes`/`type` lookup is fallible; the other keys (`layers`, `name`, `collider`, `tiles`, `x`, `y`, `tileSize`) are assumed present.
- The screen-to-canvas conversion of finger positions (`event.x * SCREEN_WIDTH / SCALE_FACTOR`). Events carry canvas positions.
- `clamp_magnitude_ip`, `normalize`/`normalize_ip` and `.angle` are `FloatOps` parameters rather than computed. `length() > 0` is taken as "the vector is not zero".
- Game.GameState.MoveAndCollide: the offsets `player_pos == hitbox - 3` and `- 6` are exact in reals. With floats, `(p + 3) - 3` may round differently when no collision happens.
- Collision boxes are taken to have positive size (`tileSize > 0`). `Overlaps` is open-interval overlap, which matches pygame's `colliderect` only then: pygame treats a zero-size rectangle as colliding with nothing and normalises negative sizes, and neither is modelled.
- Input.RestKept: the rest-when-free property needs finger ids other than `-1`. A touch event carrying id `-1` would match the "free" marker. Finger ids are not `-1` in practice, so this is not claimed as a defect.
- `src/pygame_ios/__main__.py` (template download, zip extraction, copying and renaming files) is not part of this model. It is network and file-system handling.
