/** The axis-separated collision passes of the main loop.  Each pass moves
    the player's hitbox along one axis and then walks the collision boxes in
    order, pushing the hitbox out of every box it overlaps. */
module Collision {
  import opened Geometry

  /** One box of a pass: if the hitbox `h` overlaps the box `t`, push it out
      against the motion `d` along `ax`.  Moving forward (`d > 0`) sets the
      hitbox's far edge (`right` or `bottom`) to the box's near edge;
      otherwise its near edge (`left` or `top`) goes to the box's far edge. */
  function Snap(h: Rect, t: Rect, d: real, ax: Axis): Rect {
    if !Overlaps(t, h) then h
    else if d > 0.0 then WithLo(h, ax, Lo(t, ax) - Extent(h, ax))
    else WithLo(h, ax, Lo(t, ax) + Extent(t, ax))
  }

  /** The hitbox after visiting every box of `tiles`, first to last. */
  function Sweep(h: Rect, tiles: seq<Rect>, d: real, ax: Axis): Rect
    decreases |tiles|
  {
    if tiles == [] then h
    else Snap(Sweep(h, tiles[..|tiles| - 1], d, ax), tiles[|tiles| - 1], d, ax)
  }

  /** Snapping against a box leaves the hitbox touching it, not overlapping:
      moved along `ax` only, with its far edge on the box's near edge when
      moving forward and its near edge on the box's far edge otherwise. */
  lemma SnapSeparates(h: Rect, t: Rect, d: real, ax: Axis)
    requires Overlaps(t, h)
    ensures !Overlaps(t, Snap(h, t, d, ax))
    ensures var s := Snap(h, t, d, ax);
            s == WithLo(h, ax, Lo(s, ax)) &&
            if d > 0.0 then Lo(s, ax) + Extent(s, ax) == Lo(t, ax)
            else Lo(s, ax) == Lo(t, ax) + Extent(t, ax)
  {
  }

  /** A pass along `ax` changes only the hitbox's position along `ax`: its
      size and its position on the other axis stay. */
  lemma {:induction false} SweepMovesOnlyAlong(h: Rect, tiles: seq<Rect>, d: real, ax: Axis)
    ensures Sweep(h, tiles, d, ax) == WithLo(h, ax, Lo(Sweep(h, tiles, d, ax), ax))
    decreases |tiles|
  {
    if tiles != [] {
      SweepMovesOnlyAlong(h, tiles[..|tiles| - 1], d, ax);
    }
  }

  /** Collisions only push back against the motion: a pass never carries the
      hitbox further in the direction it was moving. */
  lemma {:induction false} SweepPushesBack(h: Rect, tiles: seq<Rect>, d: real, ax: Axis)
    ensures d > 0.0 ==> Lo(Sweep(h, tiles, d, ax), ax) <= Lo(h, ax)
    ensures d <= 0.0 ==> Lo(Sweep(h, tiles, d, ax), ax) >= Lo(h, ax)
    decreases |tiles|
  {
    if tiles != [] {
      SweepPushesBack(h, tiles[..|tiles| - 1], d, ax);
    }
  }

  /** After a pass the hitbox is clear of the last box visited. */
  lemma SweepClearOfLast(h: Rect, tiles: seq<Rect>, d: real, ax: Axis)
    requires tiles != []
    ensures !Overlaps(tiles[|tiles| - 1], Sweep(h, tiles, d, ax))
  {
  }

  /** After a pass the hitbox is where it started or flush against an edge of
      one of the boxes: the near edge when moving forward, the far edge
      otherwise. */
  lemma {:induction false} SweepRestsOnEdge(h: Rect, tiles: seq<Rect>, d: real, ax: Axis)
    ensures var r := Sweep(h, tiles, d, ax);
            r == h ||
            exists k :: 0 <= k < |tiles| &&
              Lo(r, ax) == (if d > 0.0 then Lo(tiles[k], ax) - Extent(h, ax)
                            else Lo(tiles[k], ax) + Extent(tiles[k], ax))
    decreases |tiles|
  {
    if tiles != [] {
      var n := |tiles| - 1;
      var front := tiles[..n];
      SweepRestsOnEdge(h, front, d, ax);
      SweepMovesOnlyAlong(h, front, d, ax);
      var p := Sweep(h, front, d, ax);
      if !Overlaps(tiles[n], p) {
        if p != h {
          var k :| 0 <= k < |front| &&
                   Lo(p, ax) == (if d > 0.0 then Lo(front[k], ax) - Extent(h, ax)
                                 else Lo(front[k], ax) + Extent(front[k], ax));
          assert tiles[k] == front[k];
        }
      }
    }
  }

  /** A hitbox that overlaps none of the boxes is left where it is. */
  lemma {:induction false} SweepWithoutContact(h: Rect, tiles: seq<Rect>, d: real, ax: Axis)
    requires forall k :: 0 <= k < |tiles| ==> !Overlaps(tiles[k], h)
    ensures Sweep(h, tiles, d, ax) == h
    decreases |tiles|
  {
    if tiles != [] {
      var front := tiles[..|tiles| - 1];
      assert forall k :: 0 <= k < |front| ==> front[k] == tiles[k];
      SweepWithoutContact(h, front, d, ax);
    }
  }
}
