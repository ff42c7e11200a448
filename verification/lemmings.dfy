/**
 * A lemming: position, flags and counters updated once per tick against the
 * terrain and the hazards. The pure functions below say what one tick does
 * to a lemming's state and to the terrain; the class `Lemming` does it in
 * place and is proved to agree with them.
 */
module Lemmings {
  import opened Util
  import opened Skills
  import opened HeightField
  import opened Hazards

  /** Width and height of a lemming. */
  const Size: real := 20.0
  /** Horizontal step per tick. */
  const Speed: real := 2.0
  /** Vertical fall per tick. */
  const FallStep: real := 2.0
  const ClimbStep: int := 2
  const MaxClimbHeight: int := 100
  /** Distance ahead, in the facing direction, at which a climber looks for a wall. */
  const LookAhead: int := 20
  /** Half the side of the box around the exit that counts as reaching it. */
  const ExitReach: real := 20.0
  const LemmingPeriod: real := 100.0
  const LemmingFrames: nat := 4

  /** Every field of a lemming that changes or is read by the simulation. */
  datatype LemmingState = LemmingState(
    x: real, y: real,
    direction: int,
    skills: SkillFlags,
    isBlocking: bool, isClimbing: bool, isDigging: bool, isBuilding: bool,
    anim: Animation,
    reachedExit: bool, isDead: bool,
    climbHeight: int)

  /** A lemming as the constructor makes it. */
  function Spawned(x: real, y: real): (r: LemmingState)
    ensures r.x == x && r.y == y && r.direction == 1
    ensures forall t :: !r.skills.Has(t)
    ensures !Frozen(r) && Steady(r)
  {
    LemmingState(x, y, 1, NoSkills, false, false, false, false, Animation(0, 0.0), false, false, 0)
  }

  /** Blocking, exited and dead lemmings are not updated any more. */
  predicate Frozen(s: LemmingState)
    ensures Terminal(s) ==> Frozen(s)
  {
    s.isBlocking || s.reachedExit || s.isDead
  }

  predicate Terminal(s: LemmingState)
  {
    s.reachedExit || s.isDead
  }

  /** What holds between ticks: the climb counter is even and below its maximum, the frame is in range. */
  ghost predicate Steady(s: LemmingState)
  {
    0 <= s.climbHeight < MaxClimbHeight && s.climbHeight % 2 == 0 && 0 <= s.anim.frame < LemmingFrames
  }

  /** The hazards as the lemmings see them: the water, if any, and the traps. */
  datatype HazardView = HazardView(water: Option<Rect>, traps: seq<Rect>)

  function Box(s: LemmingState): Rect
  {
    Rect(s.x, s.y, Size, Size)
  }

  /** The lemming overlaps the water or one of the traps. */
  predicate HitsHazard(s: LemmingState, hz: HazardView)
    ensures hz.water.None? && hz.traps == [] ==> !HitsHazard(s, hz)
  {
    (hz.water.Some? && Overlap(Box(s), hz.water.value)) ||
    exists i :: 0 <= i < |hz.traps| && Overlap(Box(s), hz.traps[i])
  }

  /** Walking, falling and climbing, the middle part of `update`. */
  function Move(s: LemmingState): (r: LemmingState)
    ensures r == s.(x := r.x, y := r.y, isClimbing := r.isClimbing, climbHeight := r.climbHeight)
    ensures s.y <= r.y <= s.y + FallStep
  {
    var x := if !s.isClimbing && !s.isDigging && !s.isBuilding then s.x + Speed * s.direction as real else s.x;
    var y := if !s.isClimbing && !s.isDigging then s.y + FallStep else s.y;
    if !s.isClimbing then s.(x := x, y := y)
    else if s.climbHeight + ClimbStep >= MaxClimbHeight then s.(x := x, y := y, isClimbing := false, climbHeight := 0)
    else s.(x := x, y := y, climbHeight := s.climbHeight + ClimbStep)
  }

  /**
   * A lemming walks one step in its direction only when it is neither
   * climbing, digging nor building, and falls one step only when it is
   * neither climbing nor digging. A climber's counter grows by 2 and, at the
   * maximum, restarts at 0 with climbing over; so the counter stays even and
   * below the maximum between ticks. Nothing else changes.
   */
  lemma MoveRules(s: LemmingState)
    ensures var r := Move(s);
      && r.x == (if !s.isClimbing && !s.isDigging && !s.isBuilding then s.x + Speed * s.direction as real else s.x)
      && r.y == (if !s.isClimbing && !s.isDigging then s.y + FallStep else s.y)
      && (!s.isClimbing ==> !r.isClimbing && r.climbHeight == s.climbHeight)
      && (s.isClimbing && s.climbHeight + ClimbStep >= MaxClimbHeight ==> !r.isClimbing && r.climbHeight == 0)
      && (s.isClimbing && s.climbHeight + ClimbStep < MaxClimbHeight ==>
            r.isClimbing && r.climbHeight == s.climbHeight + ClimbStep)
      && r == s.(x := r.x, y := r.y, isClimbing := r.isClimbing, climbHeight := r.climbHeight)
      && (Steady(s) ==> Steady(r))
  {
  }

  /** A lemming's state and the terrain after one of its steps. */
  datatype Outcome = Outcome(lemming: LemmingState, heights: seq<real>)

  /** The field after a lemming at `x` has dug and then built, as its flags say. */
  function Worked(hs: seq<real>, bottom: real, x: real, digging: bool, building: bool): (r: seq<real>)
    ensures |r| == |hs|
    ensures InBounds(hs, bottom) ==> InBounds(r, bottom)
  {
    var dug := if digging then Dug(hs, bottom, x) else hs;
    if building then Built(dug, bottom, x) else dug
  }

  /** Digging and building touch only the column under the lemming. */
  lemma WorkedFrame(hs: seq<real>, bottom: real, x: real, digging: bool, building: bool)
    ensures var r := Worked(hs, bottom, x, digging, building);
            && (forall i :: 0 <= i < |hs| && i != x.Floor ==> r[i] == hs[i])
            && (!digging && !building ==> r == hs)
  {
  }

  /**
   * The landing part of `checkCollisions`: when the lemming's feet are below
   * the surface read under it, it is put back on that surface and picks up
   * digging, building and climbing as its skills allow.
   */
  function Land(s: LemmingState, g: Ground): (r: LemmingState)
    ensures r.y + Size <= HeightAt(g.heights, g.bottom, s.x) && r.y <= s.y
    ensures r == s.(y := r.y, isDigging := r.isDigging, isBuilding := r.isBuilding,
                    isClimbing := r.isClimbing, climbHeight := r.climbHeight)
  {
    var surface := HeightAt(g.heights, g.bottom, s.x);
    if s.y + Size <= surface then s
    else
      var climb := s.skills.climber && !s.isClimbing &&
                   HeightAt(g.heights, g.bottom, s.x + (s.direction * LookAhead) as real) > surface;
      s.(y := surface - Size,
         isDigging := s.isDigging || s.skills.digger,
         isBuilding := s.isBuilding || s.skills.builder,
         isClimbing := s.isClimbing || climb,
         climbHeight := if climb then 0 else s.climbHeight)
  }

  /** `checkCollisions`: land, dig and build under the lemming, and die below the bottom of the screen. */
  function Collide(s: LemmingState, g: Ground): (o: Outcome)
    ensures |o.heights| == |g.heights|
    ensures InBounds(g.heights, g.bottom) ==> InBounds(o.heights, g.bottom)
  {
    var l := Land(s, g);
    Outcome(l.(isDead := l.isDead || l.y > g.bottom), Worked(g.heights, g.bottom, l.x, l.isDigging, l.isBuilding))
  }

  /**
   * What `checkCollisions` promises. When the feet are below the surface
   * read at entry the lemming ends exactly on it. Digging and building are
   * switched on only on landing with the skill, and never off. Climbing
   * starts only on landing with the skill when the ground one body ahead
   * reads greater than the surface, and then from a counter of 0. The column
   * under the lemming is dug and built while those flags are on. The lemming
   * dies exactly when it ends below the bottom of the screen, which cannot
   * happen while the field lies on screen.
   */
  lemma CollideRules(s: LemmingState, g: Ground)
    ensures var surface := HeightAt(g.heights, g.bottom, s.x);
            var o := Collide(s, g);
            && (s.y + Size > surface ==> o.lemming.y + Size == surface)
            && (s.y + Size <= surface ==> o.lemming.y == s.y)
            && o.lemming.isDigging == (s.isDigging || (s.y + Size > surface && s.skills.digger))
            && o.lemming.isBuilding == (s.isBuilding || (s.y + Size > surface && s.skills.builder))
            && (o.lemming.isClimbing != s.isClimbing ==>
                  && s.y + Size > surface && s.skills.climber && !s.isClimbing
                  && HeightAt(g.heights, g.bottom, s.x + (s.direction * LookAhead) as real) > surface
                  && o.lemming.climbHeight == 0)
            && (o.lemming.isClimbing == s.isClimbing ==> o.lemming.climbHeight == s.climbHeight)
            && o.lemming.x == s.x && o.lemming.direction == s.direction && o.lemming.skills == s.skills
            && o.lemming.isBlocking == s.isBlocking && o.lemming.reachedExit == s.reachedExit
            && o.lemming.anim == s.anim
            && o.heights == Worked(g.heights, g.bottom, s.x, o.lemming.isDigging, o.lemming.isBuilding)
            && o.lemming.isDead == (s.isDead || o.lemming.y > g.bottom)
            && (InBounds(g.heights, g.bottom) ==> o.lemming.isDead == s.isDead)
  {
  }

  /** The lemming stands within 20 units of the exit on both axes. */
  predicate AtExit(s: LemmingState, g: Ground)
    ensures s.x == g.exitX as real && s.y == g.exitY ==> AtExit(s, g)
    ensures s.x == g.exitX as real + ExitReach && s.y == g.exitY - ExitReach ==> AtExit(s, g)
    ensures s.x > g.exitX as real + ExitReach || s.y < g.exitY - ExitReach ==> !AtExit(s, g)
  {
    s.x >= g.exitX as real - ExitReach && s.x <= g.exitX as real + ExitReach &&
    s.y >= g.exitY - ExitReach && s.y <= g.exitY + ExitReach
  }

  /** The exit check at the end of `update`: a lemming standing by the exit has reached it. */
  function Arrive(s: LemmingState, g: Ground): (r: LemmingState)
    ensures r.reachedExit <==> s.reachedExit || AtExit(s, g)
    ensures r.(reachedExit := s.reachedExit) == s
  {
    if AtExit(s, g) then s.(reachedExit := true) else s
  }

  /** The animation step at the start of `update`. */
  function Animated(s: LemmingState, dt: real): (r: LemmingState)
    ensures r == s.(anim := r.anim)
    ensures 0 <= s.anim.frame < LemmingFrames ==> 0 <= r.anim.frame < LemmingFrames
  {
    s.(anim := Animate(s.anim, dt, LemmingPeriod, LemmingFrames))
  }

  /**
   * The rest of `update` once the animation has advanced: a lemming
   * overlapping a hazard dies where it stands; otherwise it moves, collides
   * with the terrain, and reaches the exit when it stands by it.
   */
  function Advance(a: LemmingState, g: Ground, hz: HazardView): (o: Outcome)
    ensures |o.heights| == |g.heights|
    ensures InBounds(g.heights, g.bottom) ==> InBounds(o.heights, g.bottom)
  {
    if HitsHazard(a, hz) then Outcome(a.(isDead := true), g.heights)
    else
      var c := Collide(Move(a), g);
      Outcome(Arrive(c.lemming, g), c.heights)
  }

  /**
   * `Lemming.update`: one tick of one lemming against the terrain `g`.
   * A frozen lemming is left as it was. Otherwise its animation advances
   * and it goes on as `Advance` says.
   */
  function Tick(s: LemmingState, g: Ground, hz: HazardView, dt: real): (o: Outcome)
    ensures |o.heights| == |g.heights|
    ensures InBounds(g.heights, g.bottom) ==> InBounds(o.heights, g.bottom)
  {
    if Frozen(s) then Outcome(s, g.heights) else Advance(Animated(s, dt), g, hz)
  }

  /**
   * What one tick promises. A blocking, exited or dead lemming and the
   * terrain stay exactly as they were. Otherwise the animation advances;
   * a lemming overlapping a hazard dies without moving and without touching
   * the terrain. The direction, the skills and the blocking flag never
   * change; digging and building are never switched off and only switched on
   * with the skill; a steady lemming stays steady. The terrain changes at
   * most in the column under the lemming and stays on screen; on an
   * on-screen field a lemming never ends both exited and dead.
   */
  lemma {:induction false} TickRules(s: LemmingState, g: Ground, hz: HazardView, dt: real)
    ensures var o := Tick(s, g, hz, dt);
      && (Frozen(s) ==> o == Outcome(s, g.heights))
      && (!Frozen(s) ==> o.lemming.anim == Animate(s.anim, dt, LemmingPeriod, LemmingFrames))
      && (!Frozen(s) && HitsHazard(s, hz) ==>
            o.lemming.isDead && o.lemming.x == s.x && o.lemming.y == s.y && o.heights == g.heights)
      && o.lemming.direction == s.direction && o.lemming.skills == s.skills
      && o.lemming.isBlocking == s.isBlocking
      && (s.isDigging ==> o.lemming.isDigging) && (s.isBuilding ==> o.lemming.isBuilding)
      && (o.lemming.isDigging && !s.isDigging ==> s.skills.digger)
      && (o.lemming.isBuilding && !s.isBuilding ==> s.skills.builder)
      && (Steady(s) ==> Steady(o.lemming))
      && (forall i :: 0 <= i < |g.heights| && i != o.lemming.x.Floor ==> o.heights[i] == g.heights[i])
      && (InBounds(g.heights, g.bottom) && !(s.reachedExit && s.isDead) ==>
            !(o.lemming.reachedExit && o.lemming.isDead))
  {
    if !Frozen(s) {
      var a := Animated(s, dt);
      assert HitsHazard(a, hz) == HitsHazard(s, hz);
      AdvanceRules(a, g, hz);
    }
  }

  /** What `Advance` promises; `TickRules` lifts it to a whole tick. */
  lemma {:induction false} AdvanceRules(a: LemmingState, g: Ground, hz: HazardView)
    ensures var o := Advance(a, g, hz);
      && (HitsHazard(a, hz) ==>
            o.lemming.isDead && o.lemming.x == a.x && o.lemming.y == a.y && o.heights == g.heights)
      && o.lemming.anim == a.anim
      && o.lemming.direction == a.direction && o.lemming.skills == a.skills
      && o.lemming.isBlocking == a.isBlocking
      && (a.isDigging ==> o.lemming.isDigging) && (a.isBuilding ==> o.lemming.isBuilding)
      && (o.lemming.isDigging && !a.isDigging ==> a.skills.digger)
      && (o.lemming.isBuilding && !a.isBuilding ==> a.skills.builder)
      && (Steady(a) ==> Steady(o.lemming))
      && (forall i :: 0 <= i < |g.heights| && i != o.lemming.x.Floor ==> o.heights[i] == g.heights[i])
      && (InBounds(g.heights, g.bottom) && !a.reachedExit && !a.isDead ==>
            !(o.lemming.reachedExit && o.lemming.isDead))
  {
    if !HitsHazard(a, hz) {
      var m := Move(a);
      MoveRules(a);
      CollideRules(m, g);
      var c := Collide(m, g);
      WorkedFrame(g.heights, g.bottom, m.x, c.lemming.isDigging, c.lemming.isBuilding);
    }
  }

  /** The lemmings and the terrain after every lemming in the list has had its tick. */
  datatype Sweep = Sweep(lemmings: seq<LemmingState>, heights: seq<real>)

  /**
   * One pass over the list in order: each lemming ticks against the terrain
   * as the lemmings before it left it. The field keeps its size and stays on
   * screen when it starts on screen.
   */
  function TickAll(ss: seq<LemmingState>, g: Ground, hz: HazardView, dt: real): (r: Sweep)
    ensures |r.lemmings| == |ss| && |r.heights| == |g.heights|
    ensures InBounds(g.heights, g.bottom) ==> InBounds(r.heights, g.bottom)
    decreases |ss|, 1
  {
    if ss == [] then Sweep([], g.heights) else TickLast(ss, g, hz, dt)
  }

  /** A pass over a non-empty list: the pass over all but the last lemming, then the last lemming's tick. */
  function TickLast(ss: seq<LemmingState>, g: Ground, hz: HazardView, dt: real): (r: Sweep)
    requires ss != []
    ensures |r.lemmings| == |ss| && |r.heights| == |g.heights|
    ensures InBounds(g.heights, g.bottom) ==> InBounds(r.heights, g.bottom)
    decreases |ss|, 0
  {
    var prev := TickAll(ss[..|ss| - 1], g, hz, dt);
    var o := Tick(ss[|ss| - 1], g.(heights := prev.heights), hz, dt);
    Sweep(prev.lemmings + [o.lemming], o.heights)
  }

  /** The terrain that the `k`-th lemming of a pass sees. */
  function GroundBefore(ss: seq<LemmingState>, k: nat, g: Ground, hz: HazardView, dt: real): Ground
    requires k <= |ss|
  {
    g.(heights := TickAll(ss[..k], g, hz, dt).heights)
  }

  /** In a pass, the `k`-th lemming ends as one tick takes it, against the terrain its predecessors left. */
  lemma {:induction false} SweepStep(ss: seq<LemmingState>, k: nat, g: Ground, hz: HazardView, dt: real)
    requires k < |ss|
    ensures TickAll(ss, g, hz, dt).lemmings[k] == Tick(ss[k], GroundBefore(ss, k, g, hz, dt), hz, dt).lemming
    decreases |ss|
  {
    var n := |ss| - 1;
    var prev := TickAll(ss[..n], g, hz, dt);
    assert TickAll(ss, g, hz, dt).lemmings == prev.lemmings + [Tick(ss[n], g.(heights := prev.heights), hz, dt).lemming];
    if k < n {
      assert ss[..n][..k] == ss[..k];
      assert ss[..n][k] == ss[k];
      SweepStep(ss[..n], k, g, hz, dt);
    } else {
      assert ss[..k] == ss[..n];
    }
  }

  /** The terrain after `k + 1` lemmings of a pass is the one the `k`-th lemming's tick leaves. */
  lemma SweepPrefix(ss: seq<LemmingState>, k: nat, g: Ground, hz: HazardView, dt: real)
    requires k < |ss|
    ensures var before := GroundBefore(ss, k, g, hz, dt);
            GroundBefore(ss, k + 1, g, hz, dt) == before.(heights := Tick(ss[k], before, hz, dt).heights)
  {
    assert ss[..k + 1][..k] == ss[..k];
    assert TickAll(ss[..k + 1], g, hz, dt) == TickLast(ss[..k + 1], g, hz, dt);
  }

  /** A pass over one more lemming extends the pass so far by that lemming's tick. */
  lemma SweepExtend(ss: seq<LemmingState>, k: nat, g: Ground, hz: HazardView, dt: real, sofar: Sweep)
    requires k < |ss| && TickAll(ss[..k], g, hz, dt) == sofar
    ensures var o := Tick(ss[k], g.(heights := sofar.heights), hz, dt);
            TickAll(ss[..k + 1], g, hz, dt) == Sweep(sofar.lemmings + [o.lemming], o.heights)
  {
    assert ss[..k + 1][..k] == ss[..k];
    assert TickAll(ss[..k + 1], g, hz, dt) == TickLast(ss[..k + 1], g, hz, dt);
  }

  /**
   * A pass leaves blocking, exited and dead lemmings as they were, keeps
   * every lemming steady and, on an on-screen field, never makes a lemming
   * both exited and dead.
   */
  lemma {:induction false} SweepKeeps(ss: seq<LemmingState>, g: Ground, hz: HazardView, dt: real)
    requires InBounds(g.heights, g.bottom)
    ensures var r := TickAll(ss, g, hz, dt);
            forall k :: 0 <= k < |ss| ==>
              && (Frozen(ss[k]) ==> r.lemmings[k] == ss[k])
              && (Steady(ss[k]) ==> Steady(r.lemmings[k]))
              && (!(ss[k].reachedExit && ss[k].isDead) ==> !(r.lemmings[k].reachedExit && r.lemmings[k].isDead))
  {
    var r := TickAll(ss, g, hz, dt);
    forall k | 0 <= k < |ss|
      ensures Frozen(ss[k]) ==> r.lemmings[k] == ss[k]
      ensures Steady(ss[k]) ==> Steady(r.lemmings[k])
      ensures !(ss[k].reachedExit && ss[k].isDead) ==> !(r.lemmings[k].reachedExit && r.lemmings[k].isDead)
    {
      SweepStep(ss, k, g, hz, dt);
      TickRules(ss[k], GroundBefore(ss, k, g, hz, dt), hz, dt);
    }
  }

  /** A lemming object; its fields are updated in place. */
  class Lemming {
    var x: real
    var y: real
    var direction: int
    var skills: SkillFlags
    var isBlocking: bool
    var isClimbing: bool
    var isDigging: bool
    var isBuilding: bool
    var animationFrame: int
    var animationTimer: real
    var reachedExit: bool
    var isDead: bool
    var climbHeight: int

    ghost function State(): LemmingState
      reads this
    {
      LemmingState(x, y, direction, skills, isBlocking, isClimbing, isDigging, isBuilding,
                   Animation(animationFrame, animationTimer), reachedExit, isDead, climbHeight)
    }

    constructor (x: real, y: real)
      ensures State() == Spawned(x, y)
    {
      this.x, this.y := x, y;
      direction := 1;
      skills := NoSkills;
      isBlocking, isClimbing, isDigging, isBuilding := false, false, false, false;
      animationFrame, animationTimer := 0, 0.0;
      reachedExit, isDead := false, false;
      climbHeight := 0;
    }

    /** `update`: one tick of this lemming, changing it and the terrain in place. */
    method Update(terrain: Terrain, dt: real, water: Water?, traps: seq<Trap>)
      requires terrain.Valid()
      modifies this, terrain.heights
      ensures var o := Tick(old(State()), old(terrain.View()), HazardView(if water == null then None else Some(water.Bounds()), TrapRects(traps)), dt);
              State() == o.lemming && terrain.heights[..] == o.heights
    {
      if isBlocking || reachedExit || isDead {
        return;
      }
      ghost var s := State();
      animationTimer := animationTimer + dt;
      if animationTimer > LemmingPeriod {
        animationFrame := (animationFrame + 1) % LemmingFrames;
        animationTimer := 0.0;
      }
      assert State() == Animated(s, dt);
      Proceed(terrain, water, traps);
    }

    /** The rest of `update` after the animation step: hazards, movement, collisions and the exit. */
    method Proceed(terrain: Terrain, water: Water?, traps: seq<Trap>)
      requires terrain.Valid()
      modifies this, terrain.heights
      ensures var o := Advance(old(State()), old(terrain.View()), HazardView(if water == null then None else Some(water.Bounds()), TrapRects(traps)));
              State() == o.lemming && terrain.heights[..] == o.heights
    {
      var hit := TouchesHazard(water, traps);
      if hit {
        isDead := true;
        return;
      }
      ghost var a := State();
      ghost var g := terrain.View();
      Walk();
      CheckCollisions(terrain);
      ghost var c := Collide(Move(a), g);
      assert State() == c.lemming && terrain.heights[..] == c.heights;
      if x >= terrain.exitX as real - ExitReach && x <= terrain.exitX as real + ExitReach &&
         y >= terrain.exitY - ExitReach && y <= terrain.exitY + ExitReach {
        reachedExit := true;
      }
    }

    /** The water and trap checks of `update`: whether this lemming overlaps the water or any trap. */
    method TouchesHazard(water: Water?, traps: seq<Trap>) returns (hit: bool)
      ensures hit == HitsHazard(State(), HazardView(if water == null then None else Some(water.Bounds()), TrapRects(traps)))
    {
      if water != null && x + Size > water.x && x < water.x + water.width &&
         y + Size > water.y && y < water.y + water.height {
        return true;
      }
      var i := 0;
      while i < |traps|
        invariant 0 <= i <= |traps|
        invariant forall j :: 0 <= j < i ==> !Overlap(Box(State()), traps[j].Bounds())
      {
        var trap := traps[i];
        if x + Size > trap.x && x < trap.x + trap.width && y + Size > trap.y && y < trap.y + trap.height {
          return true;
        }
        i := i + 1;
      }
      return false;
    }

    /** Movement, gravity and climbing, the middle of `update`. */
    method Walk()
      modifies this
      ensures State() == Move(old(State()))
    {
      if !isClimbing && !isDigging && !isBuilding {
        x := x + Speed * direction as real;
      }
      if !isClimbing && !isDigging {
        y := y + FallStep;
      }
      if isClimbing {
        climbHeight := climbHeight + ClimbStep;
        if climbHeight >= MaxClimbHeight {
          isClimbing := false;
          climbHeight := 0;
        }
      }
    }

    /** `checkCollisions`: land on the terrain, pick up behaviours, dig or build, fall off the screen. */
    method CheckCollisions(terrain: Terrain)
      requires terrain.Valid()
      modifies this, terrain.heights
      ensures var o := Collide(old(State()), old(terrain.View()));
              State() == o.lemming && terrain.heights[..] == o.heights
    {
      LandOn(terrain);
      if isDigging {
        terrain.Dig(x);
      }
      if isBuilding {
        terrain.Build(x);
      }
      if y > terrain.height {
        isDead := true;
      }
    }

    /** The first half of `checkCollisions`: snap onto the surface read under the lemming, then pick up behaviours. */
    method LandOn(terrain: Terrain)
      modifies this
      ensures State() == Land(old(State()), terrain.View())
    {
      var terrainHeight := terrain.GetHeightAt(x);
      if y + Size > terrainHeight {
        y := terrainHeight - Size;
        if skills.digger && !isDigging {
          isDigging := true;
        }
        if skills.builder && !isBuilding {
          isBuilding := true;
        }
        if skills.climber && !isClimbing && terrain.GetHeightAt(x + (direction * LookAhead) as real) > y + Size {
          isClimbing := true;
          climbHeight := 0;
        }
      }
    }
  }
}
