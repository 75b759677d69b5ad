/** Player input: the on-screen joystick driven by finger events, where one
    finger at a time owns the joystick, and the desktop keyboard, where each
    axis follows an "opposite keys cancel" rule. */
module Input {
  import opened Geometry

  /** The events the main loop reacts to.  Finger positions are already in
      canvas coordinates (the touch position times the screen size, divided
      by the scale factor). */
  datatype Event =
    | Quit
    | FingerDown(finger: int, pos: Vec2)
    | FingerMotion(finger: int, pos: Vec2)
    | FingerUp(finger: int)
    | OtherEvent

  /** `current_joystick_finger` when no finger owns the joystick. */
  const NoFinger := -1

  /** `max_knob_distance`: how far the knob may be from the joystick base. */
  const MaxKnobDistance: real := 15.0

  /** The state the event loop updates: whether the game keeps running, the
      owning finger, the joystick base and knob positions, the input and
      facing directions, and whether footsteps sound. */
  datatype Controls = Controls(
    running: bool,
    finger: int,
    base: Vec2,
    knob: Vec2,
    inputDir: Vec2,
    facingDir: Vec2,
    footstepActive: bool)

  /** The effect of one event; `rest` is the joystick's resting position. */
  function OnEvent(c: Controls, e: Event, rest: Vec2, ops: FloatOps): Controls {
    match e
    case Quit => c.(running := false)
    case FingerDown(id, p) =>
      if c.finger == NoFinger then c.(finger := id, base := p, knob := p) else c
    case FingerMotion(id, p) =>
      if c.finger == id then
        var diff := ops.clampMagnitude(Sub(p, c.base), MaxKnobDistance);
        var dir := if diff != Zero then ops.normalize(diff) else diff;
        c.(knob := Add(c.base, diff), inputDir := dir, facingDir := dir, footstepActive := true)
      else c
    case FingerUp(id) =>
      if c.finger == id then
        c.(finger := NoFinger, base := rest, knob := rest, inputDir := Zero, footstepActive := false)
      else c
    case OtherEvent => c
  }

  /** The effect of a frame's events, first to last. */
  function OnEvents(c: Controls, es: seq<Event>, rest: Vec2, ops: FloatOps): Controls
    decreases |es|
  {
    if es == [] then c else OnEvent(OnEvents(c, es[..|es| - 1], rest, ops), es[|es| - 1], rest, ops)
  }

  /** The ownership rules for single events: a finger going down claims a
      free joystick and is ignored otherwise; motion and release from any
      finger but the owner change nothing; the owner's release frees the
      joystick, puts it back at rest and stops the player. */
  lemma FingerRules(c: Controls, rest: Vec2, ops: FloatOps, id: int, p: Vec2)
    ensures c.finger == NoFinger ==>
              OnEvent(c, FingerDown(id, p), rest, ops) == c.(finger := id, base := p, knob := p)
    ensures c.finger != NoFinger ==> OnEvent(c, FingerDown(id, p), rest, ops) == c
    ensures id != c.finger ==>
              OnEvent(c, FingerMotion(id, p), rest, ops) == c && OnEvent(c, FingerUp(id), rest, ops) == c
    ensures var r := OnEvent(c, FingerMotion(c.finger, p), rest, ops);
            r.finger == c.finger && r.base == c.base && r.facingDir == r.inputDir && r.footstepActive
    ensures OnEvent(c, FingerUp(c.finger), rest, ops) ==
            c.(finger := NoFinger, base := rest, knob := rest, inputDir := Zero, footstepActive := false)
  {
  }

  /** Once a finger owns the joystick it keeps it until that finger is
      lifted, whatever other fingers do. */
  lemma {:induction false} OwnerKeeps(c: Controls, es: seq<Event>, rest: Vec2, ops: FloatOps)
    requires c.finger != NoFinger
    requires forall k :: 0 <= k < |es| ==> es[k] != FingerUp(c.finger)
    ensures OnEvents(c, es, rest, ops).finger == c.finger
    decreases |es|
  {
    if es != [] {
      var front := es[..|es| - 1];
      assert forall k :: 0 <= k < |front| ==> front[k] == es[k];
      OwnerKeeps(c, front, rest, ops);
    }
  }

  /** An event from a finger other than `owner`: any finger going down, or
      motion or release of another finger. */
  predicate FromOtherFinger(e: Event, owner: int) {
    e.FingerDown? || ((e.FingerMotion? || e.FingerUp?) && e.finger != owner)
  }

  /** While a finger owns the joystick, events from other fingers change
      nothing at all. */
  lemma {:induction false} OtherFingersIgnored(c: Controls, es: seq<Event>, rest: Vec2, ops: FloatOps)
    requires c.finger != NoFinger
    requires forall k :: 0 <= k < |es| ==> FromOtherFinger(es[k], c.finger)
    ensures OnEvents(c, es, rest, ops) == c
    decreases |es|
  {
    if es != [] {
      var front := es[..|es| - 1];
      assert forall k :: 0 <= k < |front| ==> front[k] == es[k];
      OtherFingersIgnored(c, front, rest, ops);
    }
  }

  /** The owner after a run of events is the owner before, nobody, or a
      finger that went down during the run. */
  lemma {:induction false} OwnerWentDown(c: Controls, es: seq<Event>, rest: Vec2, ops: FloatOps)
    ensures var f := OnEvents(c, es, rest, ops).finger;
            f == c.finger || f == NoFinger ||
            exists k :: 0 <= k < |es| && es[k].FingerDown? && es[k].finger == f
    decreases |es|
  {
    if es != [] {
      var front := es[..|es| - 1];
      OwnerWentDown(c, front, rest, ops);
      var f0 := OnEvents(c, front, rest, ops).finger;
      if f0 != c.finger && f0 != NoFinger {
        var k :| 0 <= k < |front| && front[k].FingerDown? && front[k].finger == f0;
        assert es[k] == front[k];
      }
    }
  }

  /** The loop stops running exactly when a `QUIT` event arrives. */
  lemma {:induction false} QuitStops(c: Controls, es: seq<Event>, rest: Vec2, ops: FloatOps)
    ensures OnEvents(c, es, rest, ops).running <==> c.running && forall k :: 0 <= k < |es| ==> es[k] != Quit
    decreases |es|
  {
    if es != [] {
      var front := es[..|es| - 1];
      assert forall k :: 0 <= k < |front| ==> front[k] == es[k];
      QuitStops(c, front, rest, ops);
    }
  }

  /** A free joystick sits at its resting position with the knob centred. */
  predicate AtRestWhenFree(c: Controls, rest: Vec2) {
    c.finger == NoFinger ==> c.base == rest && c.knob == rest
  }

  /** An event carrying the finger id that doubles as "no finger". */
  predicate UsesNoFingerId(e: Event) {
    (e.FingerDown? || e.FingerMotion? || e.FingerUp?) && e.finger == NoFinger
  }

  /** A free joystick stays at rest through any events whose finger ids are
      real ones. */
  lemma {:induction false} RestKept(c: Controls, es: seq<Event>, rest: Vec2, ops: FloatOps)
    requires AtRestWhenFree(c, rest)
    requires forall k :: 0 <= k < |es| ==> !UsesNoFingerId(es[k])
    ensures AtRestWhenFree(OnEvents(c, es, rest, ops), rest)
    decreases |es|
  {
    if es != [] {
      var front := es[..|es| - 1];
      assert forall k :: 0 <= k < |front| ==> front[k] == es[k];
      RestKept(c, front, rest, ops);
    }
  }

  /** `clamp_magnitude` keeps vectors within the given length. */
  ghost predicate ClampBounded(ops: FloatOps) {
    forall v :: LengthSq(ops.clampMagnitude(v, MaxKnobDistance)) <= MaxKnobDistance * MaxKnobDistance
  }

  predicate KnobInReach(c: Controls) {
    LengthSq(Sub(c.knob, c.base)) <= MaxKnobDistance * MaxKnobDistance
  }

  /** With a bounded clamp the knob never leaves the circle of radius
      `max_knob_distance` around the base. */
  lemma {:induction false} KnobStaysInReach(c: Controls, es: seq<Event>, rest: Vec2, ops: FloatOps)
    requires ClampBounded(ops)
    requires KnobInReach(c)
    ensures KnobInReach(OnEvents(c, es, rest, ops))
    decreases |es|
  {
    if es != [] {
      var front := es[..|es| - 1];
      KnobStaysInReach(c, front, rest, ops);
      var p := OnEvents(c, front, rest, ops);
      match es[|es| - 1]
      case FingerMotion(id, pos) =>
        if p.finger == id {
          var diff := ops.clampMagnitude(Sub(pos, p.base), MaxKnobDistance);
          assert Sub(Add(p.base, diff), p.base) == diff;
        }
      case _ =>
    }
  }

  // ---------------------------------------------------------------------
  // Keyboard

  /** The keys the desktop build reads: WASD and the arrow keys. */
  datatype Key = KeyW | KeyA | KeyS | KeyD | KeyUp | KeyLeft | KeyDown | KeyRight

  /** One axis from its two opposing keys: both or neither give 0, the
      negative key alone -1, the positive key alone +1. */
  function AxisValue(negative: bool, positive: bool): (r: int)
    ensures r == 0 <==> negative == positive
    ensures r == -1 <==> negative && !positive
    ensures r == 1 <==> positive && !negative
  {
    if negative == positive then 0 else if negative then -1 else 1
  }

  /** The raw movement vector the held keys ask for (up is negative y). */
  function KeyboardDir(pressed: set<Key>): Vec2 {
    var up := KeyW in pressed || KeyUp in pressed;
    var left := KeyA in pressed || KeyLeft in pressed;
    var down := KeyS in pressed || KeyDown in pressed;
    var right := KeyD in pressed || KeyRight in pressed;
    Vec2(AxisValue(left, right) as real, AxisValue(up, down) as real)
  }

  /** The keyboard block of the main loop before normalisation: it builds
      the vector axis by axis and raises `moved` when an axis is set. */
  method ResolveKeys(pressed: set<Key>) returns (dir: Vec2, moved: bool)
    ensures dir == KeyboardDir(pressed)
    ensures moved <==> dir != Zero
  {
    moved := false;
    var up := KeyW in pressed || KeyUp in pressed;
    var left := KeyA in pressed || KeyLeft in pressed;
    var down := KeyS in pressed || KeyDown in pressed;
    var right := KeyD in pressed || KeyRight in pressed;
    dir := Zero;

    if up && down {
      dir := dir.(y := 0.0);
    } else if up {
      dir := dir.(y := -1.0);
      moved := true;
    } else if down {
      dir := dir.(y := 1.0);
      moved := true;
    } else {
      dir := dir.(y := 0.0);
    }

    if left && right {
      dir := dir.(x := 0.0);
    } else if left {
      dir := dir.(x := -1.0);
      moved := true;
    } else if right {
      dir := dir.(x := 1.0);
      moved := true;
    } else {
      dir := dir.(x := 0.0);
    }
  }

  /** The desktop keyboard block as a whole: the held keys set the input
      direction, normalised when it is not zero; moving turns the player and
      starts the footsteps, standing still stops them.  The joystick and
      `running` are never touched. */
  function OnKeyboard(c: Controls, pressed: set<Key>, ops: FloatOps): (r: Controls)
    ensures r.running == c.running && r.finger == c.finger && r.base == c.base && r.knob == c.knob
    ensures r.footstepActive <==> KeyboardDir(pressed) != Zero
    ensures KeyboardDir(pressed) == Zero ==> r.inputDir == Zero && r.facingDir == c.facingDir
    ensures KeyboardDir(pressed) != Zero ==> r.facingDir == r.inputDir
  {
    var d := KeyboardDir(pressed);
    if d != Zero then c.(inputDir := ops.normalize(d), facingDir := ops.normalize(d), footstepActive := true)
    else c.(inputDir := Zero, footstepActive := false)
  }

  /** The input half of a frame: the events in order, then, when the
      keyboard is read (off iOS), the keyboard block.  The game stops
      exactly on a `QUIT`, the owning finger and the joystick are those the
      events leave, and a free joystick stays at rest. */
  function FrameInput(c: Controls, es: seq<Event>, pressed: set<Key>, keyboard: bool,
                      rest: Vec2, ops: FloatOps): (r: Controls)
    ensures r.running <==> c.running && forall k :: 0 <= k < |es| ==> es[k] != Quit
    ensures var e := OnEvents(c, es, rest, ops);
            r.finger == e.finger && r.base == e.base && r.knob == e.knob
    ensures !keyboard ==> r == OnEvents(c, es, rest, ops)
    ensures AtRestWhenFree(c, rest) && (forall k :: 0 <= k < |es| ==> !UsesNoFingerId(es[k])) ==>
              AtRestWhenFree(r, rest)
  {
    QuitStops(c, es, rest, ops);
    var e := OnEvents(c, es, rest, ops);
    assert AtRestWhenFree(c, rest) && (forall k :: 0 <= k < |es| ==> !UsesNoFingerId(es[k])) ==>
             AtRestWhenFree(e, rest) by {
      if AtRestWhenFree(c, rest) && forall k :: 0 <= k < |es| ==> !UsesNoFingerId(es[k]) {
        RestKept(c, es, rest, ops);
      }
    }
    if keyboard then OnKeyboard(e, pressed, ops) else e
  }
}
