/** The player's animation state machine: the sixteen-pixel frames of the
    player sheet, the named animations as lists of frame numbers, the choice
    of animation from the facing angle and the movement, and the per-frame
    update of the animation index and timer. */
module Animation {
  import opened Geometry
  import Tilemap
  import Wrappers

  const PlayerSize := 16

  /** `player_srcrects`: three rows of four frames on the player sheet. */
  const SrcRects: seq<IntRect> := [
    IntRect(0, 0, PlayerSize, PlayerSize), IntRect(16, 0, PlayerSize, PlayerSize),
    IntRect(32, 0, PlayerSize, PlayerSize), IntRect(48, 0, PlayerSize, PlayerSize),
    IntRect(0, 16, PlayerSize, PlayerSize), IntRect(16, 16, PlayerSize, PlayerSize),
    IntRect(32, 16, PlayerSize, PlayerSize), IntRect(48, 16, PlayerSize, PlayerSize),
    IntRect(0, 32, PlayerSize, PlayerSize), IntRect(16, 32, PlayerSize, PlayerSize),
    IntRect(32, 32, PlayerSize, PlayerSize), IntRect(48, 32, PlayerSize, PlayerSize)
  ]

  /** `player_anim_set`: each animation is a list of indices into `SrcRects`. */
  const AnimSet: map<string, seq<int>> := map[
    "idledown" := [0],
    "idleright" := [1],
    "idleup" := [2],
    "idleleft" := [3],
    "walkdown" := [4, 0, 8, 0],
    "walkright" := [5, 1, 9, 1],
    "walkup" := [6, 2, 10, 2],
    "walkleft" := [7, 3, 11, 3]
  ]

  /** Seconds per animation frame: half of `max_footstep_timer` (0.3). */
  const FrameTime: real := 0.15

  /** Every animation has at least one frame and names only frames that
      exist, so the lookup `player_srcrects[player_anim_set[key][i]]` is in
      bounds for every key and index. */
  lemma FramesInBounds()
    ensures forall k :: k in AnimSet ==> |AnimSet[k]| > 0
    ensures forall k, i :: k in AnimSet && 0 <= i < |AnimSet[k]| ==> 0 <= AnimSet[k][i] < |SrcRects|
  {
  }

  /** The player sheet is a four-column grid of sixteen-pixel cells: frame `i`
      is the cell the tilemap's source-cell rule gives id `i`. */
  lemma SrcRectsAreSheetCells()
    ensures forall i :: 0 <= i < |SrcRects| ==>
              Tilemap.SourceCell(i, 4, PlayerSize).Ok? &&
              SrcRects[i] == IntRect(Tilemap.SourceCell(i, 4, PlayerSize).value.x,
                                     Tilemap.SourceCell(i, 4, PlayerSize).value.y,
                                     PlayerSize, PlayerSize)
  {
    forall i | 0 <= i < |SrcRects|
      ensures Tilemap.SourceCell(i, 4, PlayerSize) == Wrappers.Ok(Tilemap.Cell(SrcRects[i].x, SrcRects[i].y))
    {
      Tilemap.SourceCellOfGridCell(i % 4, i / 4, 4, PlayerSize);
      assert i == (i / 4) * 4 + i % 4;
    }
  }

  /** The direction part of the animation key, from the facing angle in
      degrees: the four ranges cover every angle and overlap nowhere. */
  function Suffix(angle: real): (r: string)
    ensures r == "up" <==> -135.0 < angle < -45.0
    ensures r == "right" <==> -45.0 <= angle <= 45.0
    ensures r == "down" <==> 45.0 < angle < 135.0
    ensures r == "left" <==> angle <= -135.0 || 135.0 <= angle
  {
    if angle > -135.0 && angle < -45.0 then "up"
    else if angle >= -45.0 && angle <= 45.0 then "right"
    else if angle > 45.0 && angle < 135.0 then "down"
    else "left"
  }

  /** The movement part of the key: `walk` while the input vector is longer
      than 0.01, `idle` otherwise (compared on squared lengths). */
  function Prefix(dir: Vec2): (r: string)
    ensures r == "walk" || r == "idle"
  {
    if LengthSq(dir) > 0.0001 then "walk" else "idle"
  }

  /** `Prefix` is the length test: for the length `len` of `dir`, the
      prefix is `walk` exactly when `len > 0.01`. */
  lemma PrefixByLength(dir: Vec2, len: real)
    requires len >= 0.0 && len * len == LengthSq(dir)
    ensures Prefix(dir) == "walk" <==> len > 0.01
  {
    if len > 0.01 {
      assert len * len > 0.01 * len >= 0.0001;
    } else {
      assert len * len <= 0.01 * len <= 0.0001;
    }
  }

  function Key(prefix: string, suffix: string): string {
    prefix + suffix
  }

  /** Whatever the angle and the movement, the composed key names an
      animation. */
  lemma KeyInAnimSet(angle: real, dir: Vec2)
    ensures Key(Prefix(dir), Suffix(angle)) in AnimSet
  {
    var p, s := Prefix(dir), Suffix(angle);
    if p == "walk" {
      if s == "up" { assert p + s == "walkup"; }
      else if s == "right" { assert p + s == "walkright"; }
      else if s == "down" { assert p + s == "walkdown"; }
      else { assert p + s == "walkleft"; }
    } else {
      if s == "up" { assert p + s == "idleup"; }
      else if s == "right" { assert p + s == "idleright"; }
      else if s == "down" { assert p + s == "idledown"; }
      else { assert p + s == "idleleft"; }
    }
  }

  /** The key determines its two parts, so the key changes exactly when the
      movement or the facing direction class changes. */
  lemma KeyDeterminesParts(p1: string, s1: string, p2: string, s2: string)
    requires |p1| == 4 && |p2| == 4
    ensures Key(p1, s1) == Key(p2, s2) <==> p1 == p2 && s1 == s2
  {
    if Key(p1, s1) == Key(p2, s2) {
      assert p1 == Key(p1, s1)[..4];
      assert p2 == Key(p2, s2)[..4];
      assert s1 == Key(p1, s1)[4..];
      assert s2 == Key(p2, s2)[4..];
    }
  }

  /** The animation variables: the frame timer, the index into the current
      animation, the current key and the key of the previous frame. */
  datatype Anim = Anim(timer: real, index: int, key: string, prevKey: string)

  /** The values at start-up. */
  const Initial := Anim(0.0, 0, "walkdown", "walkdown")

  /** Between frames the key names an animation, the previous key has caught
      up with it, and the index is a position in that animation. */
  predicate Consistent(a: Anim) {
    a.key in AnimSet && a.prevKey == a.key && 0 <= a.index < |AnimSet[a.key]|
  }

  /** One frame of animation, `dt` seconds after the last: advance the
      timer and, past `FrameTime`, step the index cyclically through the
      current animation; then rebuild the key from the facing angle and the
      input vector, and restart at frame 0 when it differs from last frame's. */
  function Advance(a: Anim, dt: real, angle: real, dir: Vec2): Anim
    requires a.key in AnimSet
  {
    FramesInBounds();
    var t := a.timer + dt;
    var timer, index := if t > FrameTime then 0.0 else t,
                        if t > FrameTime then (a.index + 1) % |AnimSet[a.key]| else a.index;
    var key := Key(Prefix(dir), Suffix(angle));
    if key != a.prevKey then Anim(0.0, 0, key, key) else Anim(timer, index, key, a.prevKey)
  }

  lemma InitialConsistent()
    ensures Consistent(Initial)
  {
  }

  /** Every frame keeps the animation variables consistent, so the index is
      always below the length of the animation it indexes. */
  lemma AdvanceKeepsConsistent(a: Anim, dt: real, angle: real, dir: Vec2)
    requires Consistent(a)
    ensures Consistent(Advance(a, dt, angle, dir))
  {
    FramesInBounds();
    KeyInAnimSet(angle, dir);
  }

  /** A change of key restarts the new animation at its first frame with a
      fresh timer; an unchanged key either keeps the frame or moves to the
      next one, wrapping at the end, and it moves exactly when the timer has
      run past `FrameTime`. */
  lemma AdvanceSteps(a: Anim, dt: real, angle: real, dir: Vec2)
    requires Consistent(a)
    ensures var r := Advance(a, dt, angle, dir);
            r.key == Key(Prefix(dir), Suffix(angle)) &&
            (r.key != a.key ==> r.index == 0 && r.timer == 0.0) &&
            (r.key == a.key && a.timer + dt > FrameTime ==>
               r.index == (a.index + 1) % |AnimSet[a.key]| && r.timer == 0.0) &&
            (r.key == a.key && a.timer + dt <= FrameTime ==>
               r.index == a.index && r.timer == a.timer + dt)
  {
  }

  /** The frame of the player sheet to draw for the current animation state. */
  function FrameRect(a: Anim): (r: IntRect)
    requires Consistent(a)
    ensures r in SrcRects
    ensures r.w == PlayerSize && r.h == PlayerSize
    ensures 0 <= r.x <= 48 && 0 <= r.y <= 32 && r.x % PlayerSize == 0 && r.y % PlayerSize == 0
  {
    FramesInBounds();
    SrcRects[AnimSet[a.key][a.index]]
  }
}
