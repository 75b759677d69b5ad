/** The game's mutable state and the steps of one pass of the main loop:
    events, keyboard, the two collision passes and the animation update. */
module Game {
  import opened Geometry
  import opened Wrappers
  import Tilemap
  import Animation
  import Collision
  import Input

  /** Side of the player's square hitbox. */
  const HitboxSize: real := 10.0

  /** How far the hitbox sits right of and below the player's drawn position. */
  function HitboxOffset(ax: Axis): real {
    if ax == X then 3.0 else 6.0
  }

  /** The player's drawn position and its hitbox. */
  datatype Body = Body(pos: Vec2, hitbox: Rect)

  /** One collision pass along `ax`: the player moves by the input along
      `ax`, the hitbox goes to its offset, and the sweep over the collision
      boxes pushes it back out of every box it overlaps.  Only the position
      along `ax` changes; the player stays at the hitbox's offset, and the
      hitbox never ends further along the motion than where it moved to. */
  function Pass(b: Body, dir: Vec2, tiles: seq<Rect>, ax: Axis): (r: Body)
    ensures r.hitbox == WithLo(b.hitbox, ax, Lo(r.hitbox, ax))
    ensures r.pos == With(b.pos, ax, Lo(r.hitbox, ax) - HitboxOffset(ax))
    ensures Get(dir, ax) > 0.0 ==> Lo(r.hitbox, ax) <= Get(b.pos, ax) + Get(dir, ax) + HitboxOffset(ax)
    ensures Get(dir, ax) <= 0.0 ==> Lo(r.hitbox, ax) >= Get(b.pos, ax) + Get(dir, ax) + HitboxOffset(ax)
  {
    var d := Get(dir, ax);
    var start := WithLo(b.hitbox, ax, Get(b.pos, ax) + d + HitboxOffset(ax));
    var h := Collision.Sweep(start, tiles, d, ax);
    Collision.SweepMovesOnlyAlong(start, tiles, d, ax);
    Collision.SweepPushesBack(start, tiles, d, ax);
    Body(With(b.pos, ax, Lo(h, ax) - HitboxOffset(ax)), h)
  }

  /** Both collision passes, X then Y. */
  function Moved(b: Body, dir: Vec2, tiles: seq<Rect>): Body {
    Pass(Pass(b, dir, tiles, X), dir, tiles, Y)
  }

  /** After both passes the player sits at the hitbox's offsets on both
      axes, and the hitbox keeps its size. */
  lemma MovedAtOffsets(b: Body, dir: Vec2, tiles: seq<Rect>)
    ensures var r := Moved(b, dir, tiles);
            r.pos == Vec2(r.hitbox.x - HitboxOffset(X), r.hitbox.y - HitboxOffset(Y)) &&
            r.hitbox.w == b.hitbox.w && r.hitbox.h == b.hitbox.h
  {
    var bx := Pass(b, dir, tiles, X);
    var r := Pass(bx, dir, tiles, Y);
    assert r.hitbox.x == bx.hitbox.x && r.pos.x == bx.pos.x;
  }

  class GameState {
    /** `original_joystick_pos`, after the safe-area adjustment. */
    const restJoystickPos: Vec2
    /** Whether the game runs on iOS, where the keyboard is not read. */
    const isIos: bool
    /** `map_collisions`. */
    const collisions: seq<Rect>

    var running: bool
    var joystickFinger: int
    var joystickPos: Vec2
    var knobPos: Vec2
    var inputDir: Vec2
    var facingDir: Vec2
    var footstepActive: bool
    var playerPos: Vec2
    var hitbox: Rect
    var animTimer: real
    var animIndex: int
    var animKey: string
    var animPrevKey: string

    /** The variables the event loop and the keyboard update. */
    function ControlsOf(): Input.Controls
      reads this
    {
      Input.Controls(running, joystickFinger, joystickPos, knobPos, inputDir, facingDir, footstepActive)
    }

    /** The animation variables. */
    function AnimOf(): Animation.Anim
      reads this
    {
      Animation.Anim(animTimer, animIndex, animKey, animPrevKey)
    }

    /** The player's position and hitbox. */
    function BodyOf(): Body
      reads this
    {
      Body(playerPos, hitbox)
    }

    /** Between frames the animation state is consistent and the hitbox
      keeps its size. */
    ghost predicate Valid()
      reads this
    {
      Animation.Consistent(AnimOf()) && hitbox.w == HitboxSize && hitbox.h == HitboxSize
    }

    /** The start-up values of the game variables, the player at `spawn`. */
    constructor (spawn: Vec2, collisions: seq<Rect>, restJoystickPos: Vec2, isIos: bool)
      ensures Valid()
      ensures this.collisions == collisions && this.restJoystickPos == restJoystickPos && this.isIos == isIos
      ensures ControlsOf() ==
              Input.Controls(true, Input.NoFinger, restJoystickPos, restJoystickPos, Zero, Vec2(0.0, 1.0), false)
      ensures AnimOf() == Animation.Initial
      ensures playerPos == spawn && hitbox == Rect(spawn.x, spawn.y, HitboxSize, HitboxSize)
    {
      this.restJoystickPos := restJoystickPos;
      this.isIos := isIos;
      this.collisions := collisions;
      animTimer := 0.0;
      animIndex := 0;
      animKey := "walkdown";
      animPrevKey := "walkdown";
      facingDir := Vec2(0.0, 1.0);
      playerPos := spawn;
      hitbox := Rect(spawn.x, spawn.y, HitboxSize, HitboxSize);
      inputDir := Zero;
      footstepActive := false;
      joystickFinger := Input.NoFinger;
      joystickPos := restJoystickPos;
      knobPos := restJoystickPos;
      running := true;
    }

    /** One event of `pygame.event.get()`. */
    method HandleEvent(e: Input.Event, ops: FloatOps)
      modifies this
      ensures ControlsOf() == Input.OnEvent(old(ControlsOf()), e, restJoystickPos, ops)
      ensures playerPos == old(playerPos) && hitbox == old(hitbox) && AnimOf() == old(AnimOf())
    {
      if e.Quit? {
        running := false;
      }
      if e.FingerDown? {
        if joystickFinger == Input.NoFinger {
          joystickFinger := e.finger;
          joystickPos := e.pos;
          knobPos := joystickPos;
        }
      }
      if e.FingerMotion? {
        if joystickFinger == e.finger {
          knobPos := e.pos;
          var diff := Sub(knobPos, joystickPos);
          diff := ops.clampMagnitude(diff, Input.MaxKnobDistance);
          knobPos := Add(joystickPos, diff);
          inputDir := if diff != Zero then ops.normalize(diff) else diff;
          facingDir := inputDir;
          footstepActive := true;
        }
      }
      if e.FingerUp? {
        if joystickFinger == e.finger {
          joystickFinger := Input.NoFinger;
          joystickPos := restJoystickPos;
          knobPos := joystickPos;
          inputDir := Zero;
          footstepActive := false;
        }
      }
    }

    /** The event loop of one frame. */
    method HandleEvents(events: seq<Input.Event>, ops: FloatOps)
      modifies this
      ensures ControlsOf() == Input.OnEvents(old(ControlsOf()), events, restJoystickPos, ops)
      ensures playerPos == old(playerPos) && hitbox == old(hitbox) && AnimOf() == old(AnimOf())
    {
      for i := 0 to |events|
        invariant ControlsOf() == Input.OnEvents(old(ControlsOf()), events[..i], restJoystickPos, ops)
        invariant playerPos == old(playerPos) && hitbox == old(hitbox) && AnimOf() == old(AnimOf())
      {
        assert events[..i + 1][..i] == events[..i];
        HandleEvent(events[i], ops);
      }
      assert events[..|events|] == events;
    }

    /** The desktop keyboard block: the held keys set the input direction,
      normalised when it is not zero; moving turns the player and starts the
      footsteps, standing still stops them. */
    method ApplyKeyboard(pressed: set<Input.Key>, ops: FloatOps)
      modifies this
      ensures ControlsOf() == Input.OnKeyboard(old(ControlsOf()), pressed, ops)
      ensures playerPos == old(playerPos) && hitbox == old(hitbox) && AnimOf() == old(AnimOf())
    {
      var dir, moved := Input.ResolveKeys(pressed);
      inputDir := dir;
      if moved {
        inputDir := ops.normalize(inputDir);
        facingDir := inputDir;
        footstepActive := true;
      } else {
        footstepActive := false;
      }
    }

    /** One collision pass: move the player by the input along `ax`, place
      the hitbox at its offset, then push it out of each overlapping
      collision box in turn, keeping the player at the same offset. */
    method MoveAndCollide(ax: Axis)
      modifies this
      ensures BodyOf() == Pass(old(BodyOf()), inputDir, collisions, ax)
      ensures hitbox == Collision.Sweep(
                          WithLo(old(hitbox), ax, Get(old(playerPos), ax) + Get(inputDir, ax) + HitboxOffset(ax)),
                          collisions, Get(inputDir, ax), ax)
      ensures hitbox.w == old(hitbox).w && hitbox.h == old(hitbox).h
      ensures ax == Y ==> hitbox.x == old(hitbox).x && playerPos.x == old(playerPos).x
      ensures ControlsOf() == old(ControlsOf()) && AnimOf() == old(AnimOf())
    {
      var d := Get(inputDir, ax);
      playerPos := With(playerPos, ax, Get(playerPos, ax) + d);
      hitbox := WithLo(hitbox, ax, Get(playerPos, ax) + HitboxOffset(ax));
      ghost var start := hitbox;
      for i := 0 to |collisions|
        invariant hitbox == Collision.Sweep(start, collisions[..i], d, ax)
        invariant playerPos == With(old(playerPos), ax, Lo(hitbox, ax) - HitboxOffset(ax))
        invariant ControlsOf() == old(ControlsOf()) && AnimOf() == old(AnimOf())
      {
        var tile := collisions[i];
        assert collisions[..i + 1][..i] == collisions[..i];
        if Overlaps(tile, hitbox) {
          if d > 0.0 {
            hitbox := WithLo(hitbox, ax, Lo(tile, ax) - Extent(hitbox, ax));
          } else {
            hitbox := WithLo(hitbox, ax, Lo(tile, ax) + Extent(tile, ax));
          }
          playerPos := With(playerPos, ax, Lo(hitbox, ax) - HitboxOffset(ax));
        }
      }
      assert collisions[..|collisions|] == collisions;
      Collision.SweepMovesOnlyAlong(start, collisions, d, ax);
    }

    /** The animation block, with the facing direction's angle in degrees. */
    method Animate(dt: real, angle: real)
      requires Valid()
      modifies this
      ensures Valid()
      ensures AnimOf() == Animation.Advance(old(AnimOf()), dt, angle, inputDir)
      ensures ControlsOf() == old(ControlsOf()) && playerPos == old(playerPos) && hitbox == old(hitbox)
    {
      Animation.FramesInBounds();
      animTimer := animTimer + dt;
      if animTimer > Animation.FrameTime {
        animIndex := (animIndex + 1) % |Animation.AnimSet[animKey]|;
        animTimer := 0.0;
      }
      var suffix := Animation.Suffix(angle);
      var prefix := Animation.Prefix(inputDir);
      animKey := Animation.Key(prefix, suffix);
      if animKey != animPrevKey {
        animIndex := 0;
        animTimer := 0.0;
        animPrevKey := animKey;
      }
      Animation.AdvanceKeepsConsistent(old(AnimOf()), dt, angle, inputDir);
    }

    /** The player frame drawn this frame: `player_srcrects` at the current
      animation's current index. */
    method CurrentFrame() returns (r: IntRect)
      requires Valid()
      ensures r == Animation.FrameRect(AnimOf())
      ensures r in Animation.SrcRects && r.w == Animation.PlayerSize && r.h == Animation.PlayerSize
    {
      r := Animation.FrameRect(AnimOf());
    }

    /** The input half of a frame: the events, then, off iOS, the keyboard. */
    method ReadInput(events: seq<Input.Event>, pressed: set<Input.Key>, ops: FloatOps)
      requires Valid()
      modifies this
      ensures Valid()
      ensures ControlsOf() == Input.FrameInput(old(ControlsOf()), events, pressed, !isIos, restJoystickPos, ops)
      ensures playerPos == old(playerPos) && hitbox == old(hitbox) && AnimOf() == old(AnimOf())
    {
      HandleEvents(events, ops);
      if !isIos {
        ApplyKeyboard(pressed, ops);
      }
    }

    /** Both collision passes, X then Y: afterwards the player sits at the
      hitbox's offsets on both axes. */
    method Move()
      requires Valid()
      modifies this
      ensures Valid()
      ensures BodyOf() == Moved(old(BodyOf()), inputDir, collisions)
      ensures playerPos.x == hitbox.x - HitboxOffset(X) && playerPos.y == hitbox.y - HitboxOffset(Y)
      ensures ControlsOf() == old(ControlsOf()) && AnimOf() == old(AnimOf())
    {
      MoveAndCollide(X);
      MoveAndCollide(Y);
      MovedAtOffsets(old(BodyOf()), inputDir, collisions);
    }

    /** One pass of the main loop up to drawing. */
    method Frame(events: seq<Input.Event>, pressed: set<Input.Key>, ops: FloatOps, dt: real)
      requires Valid()
      modifies this
      ensures Valid()
      ensures ControlsOf() == Input.FrameInput(old(ControlsOf()), events, pressed, !isIos, restJoystickPos, ops)
      ensures BodyOf() == Moved(old(BodyOf()), inputDir, collisions)
      ensures AnimOf() == Animation.Advance(old(AnimOf()), dt, ops.angle(facingDir), inputDir)
      ensures playerPos.x == hitbox.x - HitboxOffset(X) && playerPos.y == hitbox.y - HitboxOffset(Y)
      ensures running <==> old(running) && forall k :: 0 <= k < |events| ==> events[k] != Input.Quit
      ensures Input.AtRestWhenFree(old(ControlsOf()), restJoystickPos) &&
              (forall k :: 0 <= k < |events| ==> !Input.UsesNoFingerId(events[k])) ==>
              Input.AtRestWhenFree(ControlsOf(), restJoystickPos)
    {
      ReadInput(events, pressed, ops);
      Move();
      Animate(dt, ops.angle(facingDir));
    }
  }

  /** Start-up: build the collision boxes and find the spawn point.  A spawn
      search that raises stops the game before it starts. */
  method StartGame(m: Tilemap.MapData, restJoystickPos: Vec2, isIos: bool) returns (r: Result<GameState>)
    ensures r.Err? <==> Tilemap.GetPlayerSpawn(m).Err?
    ensures r.Err? ==> r.error == Tilemap.GetPlayerSpawn(m).error
    ensures r.Ok? ==> fresh(r.value) && r.value.Valid() &&
                      r.value.playerPos == Tilemap.GetPlayerSpawn(m).value &&
                      r.value.collisions == Tilemap.CollisionRects(m.layers, m.tileSize) &&
                      r.value.restJoystickPos == restJoystickPos && r.value.isIos == isIos
    ensures r.Ok? ==> r.value.hitbox == Rect(r.value.playerPos.x, r.value.playerPos.y, HitboxSize, HitboxSize) &&
                      r.value.ControlsOf() == Input.Controls(true, Input.NoFinger, restJoystickPos, restJoystickPos,
                                                             Zero, Vec2(0.0, 1.0), false) &&
                      r.value.AnimOf() == Animation.Initial
  {
    var rects := Tilemap.CreateTilemapCollision(m);
    var spawn := Tilemap.GetPlayerSpawn(m);
    if spawn.Err? {
      return Err(spawn.error);
    }
    var g := new GameState(spawn.value, rects, restJoystickPos, isIos);
    return Ok(g);
  }
}
