/**
 * One frame of `Game.update` as a function on values: the clock, spawning,
 * the hazard animations, the pass over the lemmings with its tallies, the
 * removal of finished lemmings and the level check. The class `Game` does
 * the same in place and is proved to agree with `Step`.
 */
module World {
  import opened Util
  import opened Skills
  import opened Levels
  import opened HeightField
  import opened Hazards
  import opened Lemmings

  datatype GameState = Playing | Paused | GameOver

  /** Milliseconds between two spawns. */
  const SpawnInterval: real := 2000.0
  /** Where new lemmings appear. */
  const SpawnX: real := 50.0
  const SpawnY: real := 0.0

  /** How many lemmings of the list stand at the exit. */
  function ExitedCount(ss: seq<LemmingState>): (n: nat)
    ensures n <= |ss|
    decreases |ss|
  {
    if ss == [] then 0
    else ExitedCount(ss[..|ss| - 1]) + (if ss[|ss| - 1].reachedExit then 1 else 0)
  }

  /** How many lemmings of the list are dead. */
  function DeadCount(ss: seq<LemmingState>): (n: nat)
    ensures n <= |ss|
    decreases |ss|
  {
    if ss == [] then 0
    else DeadCount(ss[..|ss| - 1]) + (if ss[|ss| - 1].isDead then 1 else 0)
  }

  /** The lemmings that neither reached the exit nor died, in their order. */
  function Survivors(ss: seq<LemmingState>): (r: seq<LemmingState>)
    ensures |r| <= |ss|
    ensures forall i :: 0 <= i < |r| ==> !Terminal(r[i])
    decreases |ss|
  {
    if ss == [] then []
    else
      var p := Survivors(ss[..|ss| - 1]);
      if Terminal(ss[|ss| - 1]) then p else p + [ss[|ss| - 1]]
  }

  /** The tallies are zero exactly when no lemming of the list has exited, resp. died. */
  lemma {:induction false} NoneCounted(ss: seq<LemmingState>)
    ensures ExitedCount(ss) == 0 <==> forall i :: 0 <= i < |ss| ==> !ss[i].reachedExit
    ensures DeadCount(ss) == 0 <==> forall i :: 0 <= i < |ss| ==> !ss[i].isDead
    decreases |ss|
  {
    if ss != [] {
      var n := |ss| - 1;
      NoneCounted(ss[..n]);
      assert forall i :: 0 <= i < n ==> ss[..n][i] == ss[i];
    }
  }

  /** The survivors are lemmings of the list, and every lemming still on its way survives. */
  lemma {:induction false} SurvivorsKept(ss: seq<LemmingState>)
    ensures forall s :: s in Survivors(ss) ==> s in ss && !Terminal(s)
    ensures forall s :: s in ss && !Terminal(s) ==> s in Survivors(ss)
    decreases |ss|
  {
    if ss != [] {
      var n := |ss| - 1;
      SurvivorsKept(ss[..n]);
      assert ss == ss[..n] + [ss[n]];
    }
  }

  /** Appending one lemming adds it to the tallies. */
  lemma TalliesGrow(ss: seq<LemmingState>, s: LemmingState)
    ensures ExitedCount(ss + [s]) == ExitedCount(ss) + (if s.reachedExit then 1 else 0)
    ensures DeadCount(ss + [s]) == DeadCount(ss) + (if s.isDead then 1 else 0)
  {
    assert (ss + [s])[..|ss|] == ss;
  }

  /**
   * Every lemming of a list that is never both exited and dead is counted
   * exactly once: as a survivor, as saved or as lost.
   */
  lemma {:induction false} Accounted(ss: seq<LemmingState>)
    requires forall i :: 0 <= i < |ss| ==> !(ss[i].reachedExit && ss[i].isDead)
    ensures |Survivors(ss)| + ExitedCount(ss) + DeadCount(ss) == |ss|
    decreases |ss|
  {
    if ss != [] {
      Accounted(ss[..|ss| - 1]);
    }
  }

  /** The game as a value: everything `update` reads or writes, the selection aside. */
  datatype World = World(
    heights: seq<real>,
    lemmings: seq<LemmingState>,
    water: Animation,
    traps: seq<Animation>,
    spawnTimer: real,
    saved: int,
    lost: int,
    level: int,
    state: GameState,
    timeRemaining: real,
    skills: SkillCounts)

  /** What stays fixed for a whole game: the canvas size, the levels and the hazard rectangles. */
  datatype Config = Config(width: nat, height: real, levels: seq<Level>, hz: HazardView)

  /** The terrain a lemming sees: the field, the bottom of the canvas and the exit of a `width` x `height` terrain. */
  function GroundOf(c: Config, hs: seq<real>): (g: Ground)
    ensures g.heights == hs && g.bottom == c.height
    ensures g.exitX == c.width - 100 && g.exitY == c.height - 150.0
  {
    Ground(hs, c.height, c.width - 100, c.height - 150.0)
  }

  /** The spawn timer advances; at 2000 ms a lemming appears at the spawn point and the timer restarts. */
  function Spawning(w: World, dt: real): (r: World)
    ensures w.spawnTimer + dt >= SpawnInterval ==>
              r.spawnTimer == 0.0 && r.lemmings == w.lemmings + [Spawned(SpawnX, SpawnY)]
    ensures w.spawnTimer + dt < SpawnInterval ==>
              r.spawnTimer == w.spawnTimer + dt && r.lemmings == w.lemmings
    ensures r.(spawnTimer := w.spawnTimer, lemmings := w.lemmings) == w
  {
    var t := w.spawnTimer + dt;
    if t >= SpawnInterval then w.(spawnTimer := 0.0, lemmings := w.lemmings + [Spawned(SpawnX, SpawnY)])
    else w.(spawnTimer := t)
  }

  /** `traps.forEach(trap => trap.update(dt))` on the animation states. */
  function AnimateTraps(anims: seq<Animation>, dt: real): (r: seq<Animation>)
    ensures |r| == |anims|
    ensures forall i :: 0 <= i < |anims| ==> r[i] == Animate(anims[i], dt, TrapPeriod, TrapFrames)
  {
    seq(|anims|, i requires 0 <= i < |anims| => Animate(anims[i], dt, TrapPeriod, TrapFrames))
  }

  /** The water and the traps animate; every frame stays in range and nothing else changes. */
  function Hazarding(w: World, dt: real): (r: World)
    ensures r == w.(water := r.water, traps := r.traps) && |r.traps| == |w.traps|
    ensures AnimsOk(w) ==> AnimsOk(r)
  {
    w.(water := Animate(w.water, dt, WaterPeriod, WaterFrames), traps := AnimateTraps(w.traps, dt))
  }

  /**
   * The pass over the lemmings: each ticks in order against the terrain its
   * predecessors left; the exited and the dead are tallied and removed.
   */
  function Sweeping(c: Config, w: World, dt: real): (r: World)
    ensures r == w.(heights := r.heights, lemmings := r.lemmings, saved := r.saved, lost := r.lost)
    ensures |r.heights| == |w.heights| && |r.lemmings| <= |w.lemmings|
    ensures r.saved >= w.saved && r.lost >= w.lost
  {
    var r := TickAll(w.lemmings, GroundOf(c, w.heights), c.hz, dt);
    w.(heights := r.heights, lemmings := Survivors(r.lemmings),
       saved := w.saved + ExitedCount(r.lemmings), lost := w.lost + DeadCount(r.lemmings))
  }

  /**
   * `resetLevel`: a new terrain carved from `base`, no lemmings, the clock
   * and the skill allotment of the current level, and empty tallies. The
   * spawn timer and the animations carry over.
   */
  function Restart(c: Config, w: World, base: seq<real>): (r: World)
    requires 1 <= w.level <= |c.levels|
    ensures r.heights == Carved(base, c.width - 100, c.height - 150.0)
    ensures r.lemmings == [] && r.saved == 0 && r.lost == 0
    ensures r.timeRemaining == c.levels[w.level - 1].timeLimit
    ensures r.skills == c.levels[w.level - 1].availableSkills
    ensures r.level == w.level && r.state == w.state && r.spawnTimer == w.spawnTimer
    ensures r.water == w.water && r.traps == w.traps
  {
    var l := c.levels[w.level - 1];
    w.(heights := Carved(base, c.width - 100, c.height - 150.0), lemmings := [],
       timeRemaining := l.timeLimit, skills := l.availableSkills, saved := 0, lost := 0)
  }

  /**
   * The level check: with enough lemmings saved the game moves to the next
   * level, or ends after the last one.
   */
  function Progress(c: Config, w: World, base: seq<real>): (r: World)
    requires 1 <= w.level <= |c.levels|
    ensures r.level == w.level + 1 <==> w.saved >= c.levels[w.level - 1].requiredLemmings
    ensures r.level != w.level + 1 ==> r == w
    ensures r.state == w.state || r.state == GameOver
  {
    if w.saved >= c.levels[w.level - 1].requiredLemmings then
      if w.level + 1 > |c.levels| then w.(level := w.level + 1, state := GameOver)
      else Restart(c, w.(level := w.level + 1), base)
    else w
  }

  /**
   * `Game.update(dt)` on values. Only a playing game changes. The clock runs
   * down by dt/1000 seconds and, once it is out, the game is over. Otherwise
   * lemmings spawn, the hazards animate, the lemmings tick and the level is
   * checked. `base` is the fresh terrain used when the next level starts.
   */
  function Step(c: Config, w: World, dt: real, base: seq<real>): (r: World)
    requires w.state == Playing ==> 1 <= w.level <= |c.levels|
    ensures w.state != Playing ==> r == w
    ensures w.state == Playing && w.timeRemaining - dt / 1000.0 <= 0.0 ==>
              r == w.(timeRemaining := w.timeRemaining - dt / 1000.0, state := GameOver)
  {
    if w.state != Playing then w
    else
      var t := w.timeRemaining - dt / 1000.0;
      if t <= 0.0 then w.(timeRemaining := t, state := GameOver)
      else Frame(c, w.(timeRemaining := t), dt, base)
  }

  /** A playing game whose clock has time left runs the rest of the frame on the updated clock. */
  lemma StepPlays(c: Config, w: World, dt: real, base: seq<real>)
    requires w.state == Playing && 1 <= w.level <= |c.levels| && w.timeRemaining - dt / 1000.0 > 0.0
    ensures Step(c, w, dt, base) == Frame(c, w.(timeRemaining := w.timeRemaining - dt / 1000.0), dt, base)
  {
  }

  /** The part of a frame after the clock: spawn, animate, tick and check the level. */
  function Frame(c: Config, w: World, dt: real, base: seq<real>): (r: World)
    requires 1 <= w.level <= |c.levels|
    ensures r.level == w.level || r.level == w.level + 1
    ensures r.state == w.state || r.state == GameOver
  {
    Progress(c, Sweeping(c, Hazarding(Spawning(w, dt), dt), dt), base)
  }

  /**
   * What holds of the game between frames: the field has the canvas width
   * and lies on screen, the level is in range and only a finished game is
   * past the last one, every listed lemming is still on its way and steady,
   * and the tallies are not negative.
   */
  ghost predicate WorldOk(c: Config, w: World)
  {
    && |w.heights| == c.width && InBounds(w.heights, c.height)
    && 1 <= w.level <= |c.levels| + 1
    && (w.state != GameOver ==> w.level <= |c.levels|)
    && (forall i :: 0 <= i < |w.lemmings| ==> !Terminal(w.lemmings[i]) && Steady(w.lemmings[i]))
    && 0 <= w.saved && 0 <= w.lost
  }

  /** A canvas on which the exit corridor lies on screen, and a base terrain that does. */
  ghost predicate Fits(c: Config, base: seq<real>)
  {
    150.0 <= c.height && |base| == c.width && InBounds(base, c.height)
  }

  /** The carved terrain of a new level lies on screen. */
  lemma CarvedFits(c: Config, base: seq<real>)
    requires Fits(c, base)
    ensures |Carved(base, c.width - 100, c.height - 150.0)| == c.width
    ensures InBounds(Carved(base, c.width - 100, c.height - 150.0), c.height)
  {
  }

  /** The pass over the lemmings keeps the game's invariant and counts every lemming once. */
  lemma {:induction false} SweepingKeeps(c: Config, w: World, dt: real)
    requires |w.heights| == c.width && InBounds(w.heights, c.height)
    requires forall i :: 0 <= i < |w.lemmings| ==> !Terminal(w.lemmings[i]) && Steady(w.lemmings[i])
    ensures var r := Sweeping(c, w, dt);
            && |r.heights| == c.width && InBounds(r.heights, c.height)
            && (forall i :: 0 <= i < |r.lemmings| ==> !Terminal(r.lemmings[i]) && Steady(r.lemmings[i]))
            && r.saved >= w.saved && r.lost >= w.lost
            && |r.lemmings| + (r.saved - w.saved) + (r.lost - w.lost) == |w.lemmings|
  {
    var g := GroundOf(c, w.heights);
    var r := TickAll(w.lemmings, g, c.hz, dt);
    SweepKeeps(w.lemmings, g, c.hz, dt);
    Accounted(r.lemmings);
    var s := Survivors(r.lemmings);
    SurvivorsKept(r.lemmings);
    forall i | 0 <= i < |s|
      ensures Steady(s[i])
    {
      assert s[i] in r.lemmings;
      var k :| 0 <= k < |r.lemmings| && r.lemmings[k] == s[i];
    }
  }

  /** One frame keeps the game's invariant. */
  lemma {:induction false} StepKeeps(c: Config, w: World, dt: real, base: seq<real>)
    requires WorldOk(c, w) && Fits(c, base)
    ensures WorldOk(c, Step(c, w, dt, base))
  {
    if w.state == Playing && w.timeRemaining - dt / 1000.0 > 0.0 {
      var h := Hazarding(Spawning(w.(timeRemaining := w.timeRemaining - dt / 1000.0), dt), dt);
      assert Steady(Spawned(SpawnX, SpawnY));
      SweepingKeeps(c, h, dt);
      CarvedFits(c, base);
    }
  }

  /** Every animation frame of the water and of the traps is in range. */
  ghost predicate AnimsOk(w: World)
  {
    0 <= w.water.frame < WaterFrames && forall i :: 0 <= i < |w.traps| ==> 0 <= w.traps[i].frame < TrapFrames
  }

  /** A frame keeps every animation frame in range. */
  lemma StepAnims(c: Config, w: World, dt: real, base: seq<real>)
    requires WorldOk(c, w) && AnimsOk(w)
    ensures AnimsOk(Step(c, w, dt, base))
  {
  }

  /**
   * The level check moves up one level exactly when the saved tally reaches
   * the requirement. A next level starts with no lemmings, empty tallies,
   * its own clock and skills and a new terrain; after the last level the
   * game is over.
   */
  lemma ProgressLevels(c: Config, w: World, base: seq<real>)
    requires 1 <= w.level <= |c.levels|
    ensures var r := Progress(c, w, base);
      && (r.level == w.level + 1 <==> w.saved >= c.levels[w.level - 1].requiredLemmings)
      && (r.level != w.level + 1 ==> r == w)
      && (r.level == w.level + 1 && r.level <= |c.levels| ==>
            r.state == w.state && r.lemmings == [] && r.saved == 0 && r.lost == 0
            && r.timeRemaining == c.levels[r.level - 1].timeLimit
            && r.skills == c.levels[r.level - 1].availableSkills
            && r.heights == Carved(base, c.width - 100, c.height - 150.0))
      && (r.level > |c.levels| ==> r.state == GameOver)
  {
  }

  /**
   * Over a whole frame the level changes only upwards by one, only in a
   * playing game whose clock has not run out, and only through the level
   * check.
   */
  lemma {:induction false} StepLevels(c: Config, w: World, dt: real, base: seq<real>)
    requires WorldOk(c, w)
    ensures var r := Step(c, w, dt, base);
      && (r.level == w.level || r.level == w.level + 1)
      && (r.level == w.level + 1 ==>
            && w.state == Playing && w.timeRemaining - dt / 1000.0 > 0.0
            && r == Progress(c, Sweeping(c, Hazarding(Spawning(w.(timeRemaining := w.timeRemaining - dt / 1000.0), dt), dt), dt), base))
  {
    if w.state == Playing && w.timeRemaining - dt / 1000.0 > 0.0 {
      var s := Sweeping(c, Hazarding(Spawning(w.(timeRemaining := w.timeRemaining - dt / 1000.0), dt), dt), dt);
      assert s.level == w.level;
      ProgressLevels(c, s, base);
    }
  }

  /**
   * Only a playing game changes, and it ends either because its clock ran
   * out or because the last level was completed. A paused game therefore
   * stays paused under `update`.
   */
  lemma StepEnds(c: Config, w: World, dt: real, base: seq<real>)
    requires WorldOk(c, w)
    ensures w.state != Playing ==> Step(c, w, dt, base) == w
    ensures var r := Step(c, w, dt, base);
            r.state == GameOver && w.state == Playing ==>
              w.timeRemaining - dt / 1000.0 <= 0.0 || r.level == |c.levels| + 1
    ensures Step(c, w, dt, base).state != Paused || w.state == Paused
  {
  }
}
