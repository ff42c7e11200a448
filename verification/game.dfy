/**
 * The game object: level, clock, tallies, lemmings and terrain, changed in
 * place by `update`, `spawnLemming`, `resetLevel` and the key and click
 * handlers. `View` reads the object as a `World`, and `Update` is proved
 * to do exactly what `Step` says.
 */
module Simulation {
  import opened Util
  import opened Skills
  import opened Levels
  import opened HeightField
  import opened Hazards
  import opened Lemmings
  import opened World
  import opened Controls

  /** The states of a list of lemmings, in list order. */
  ghost function States(ls: seq<Lemming>): (r: seq<LemmingState>)
    reads ls
    ensures |r| == |ls| && forall i :: 0 <= i < |ls| ==> r[i] == ls[i].State()
  {
    seq(|ls|, i reads ls requires 0 <= i < |ls| => ls[i].State())
  }

  /** The animation states of a list of traps. */
  ghost function TrapAnims(ts: seq<Trap>): (r: seq<Animation>)
    reads ts
    ensures |r| == |ts| && forall i :: 0 <= i < |ts| ==> r[i] == ts[i].Anim()
  {
    seq(|ts|, i reads ts requires 0 <= i < |ts| => ts[i].Anim())
  }

  /** `lemmings.filter(l => !l.reachedExit && !l.isDead)`: the objects kept, in order. */
  function Remaining(ls: seq<Lemming>): (r: seq<Lemming>)
    reads ls
    ensures forall o :: o in r ==> o in ls && !o.reachedExit && !o.isDead
    decreases |ls|
  {
    if ls == [] then []
    else
      var l := ls[|ls| - 1];
      var p := Remaining(ls[..|ls| - 1]);
      if l.reachedExit || l.isDead then p else p + [l]
  }

  /** The filter keeps exactly the lemmings whose states `Survivors` keeps, in order. */
  lemma {:induction false} RemainingSurvivors(ls: seq<Lemming>)
    ensures States(Remaining(ls)) == Survivors(States(ls))
    decreases |ls|
  {
    if ls != [] {
      var n := |ls| - 1;
      var l := ls[n];
      RemainingSurvivors(ls[..n]);
      assert States(ls)[..n] == States(ls[..n]);
      if !(l.reachedExit || l.isDead) {
        var p := Remaining(ls[..n]);
        assert States(p + [l]) == States(p) + [l.State()];
      }
    }
  }

  /** The filter of a list of distinct objects lists each object once. */
  lemma {:induction false} RemainingDistinct(ls: seq<Lemming>)
    requires Distinct(ls)
    ensures Distinct(Remaining(ls))
    decreases |ls|
  {
    if ls != [] {
      var n := |ls| - 1;
      RemainingDistinct(ls[..n]);
      assert ls[n] !in ls[..n];
    }
  }

  /** The game after the tick pass `r`: its terrain and lemming states, and the tallies grown by the exited and the dead. */
  ghost function Ticked(w: World, r: Sweep): World
  {
    w.(heights := r.heights, lemmings := r.lemmings,
       saved := w.saved + ExitedCount(r.lemmings), lost := w.lost + DeadCount(r.lemmings))
  }

  /** What a pass over the lemmings starts from: their states, the terrain, the hazards, the step and the tallies. */
  datatype Pass = Pass(before: seq<LemmingState>, ground: Ground, hz: HazardView, dt: real, saved: int, lost: int)

  /**
   * A pass after its first `k` lemmings: `now` holds their new states
   * followed by the untouched rest, and `done` and `heights` are what the
   * pass over the first `k` produces.
   */
  ghost predicate SweptSoFar(p: Pass, k: nat, now: seq<LemmingState>, done: seq<LemmingState>, heights: seq<real>)
  {
    && |done| == k <= |p.before| == |now|
    && TickAll(p.before[..k], p.ground, p.hz, p.dt) == Sweep(done, heights)
    && (forall j :: 0 <= j < k ==> now[j] == done[j])
    && (forall j :: k <= j < |now| ==> now[j] == p.before[j])
  }

  /** Before the first lemming ticks, the pass has done nothing. */
  lemma SweptSoFarStart(p: Pass)
    ensures SweptSoFar(p, 0, p.before, [], p.ground.heights)
  {
    assert p.before[..0] == [];
  }

  /** The `k`-th lemming's tick extends the pass by one and adds its exit and death to the tallies. */
  lemma SweptSoFarNext(p: Pass, k: nat, now: seq<LemmingState>, done: seq<LemmingState>, heights: seq<real>)
    requires SweptSoFar(p, k, now, done, heights) && k < |now|
    ensures var o := Tick(now[k], p.ground.(heights := heights), p.hz, p.dt);
            && SweptSoFar(p, k + 1, now[k := o.lemming], done + [o.lemming], o.heights)
            && ExitedCount(done + [o.lemming]) == ExitedCount(done) + (if o.lemming.reachedExit then 1 else 0)
            && DeadCount(done + [o.lemming]) == DeadCount(done) + (if o.lemming.isDead then 1 else 0)
  {
    SweepExtend(p.before, k, p.ground, p.hz, p.dt, Sweep(done, heights));
    TalliesGrow(done, Tick(now[k], p.ground.(heights := heights), p.hz, p.dt).lemming);
  }

  /** Once every lemming has ticked, `now` and `heights` are the result of the whole pass. */
  lemma SweptSoFarAll(p: Pass, now: seq<LemmingState>, done: seq<LemmingState>, heights: seq<real>)
    requires SweptSoFar(p, |now|, now, done, heights)
    ensures TickAll(p.before, p.ground, p.hz, p.dt) == Sweep(now, heights) && now == done
  {
    assert p.before[..|now|] == p.before;
  }

  class Game {
    const width: nat
    const height: real
    const water: Water
    const traps: seq<Trap>
    const levels: seq<Level>
    var terrain: Terrain
    var lemmings: seq<Lemming>
    var selectedLemming: Lemming?
    var spawnTimer: real
    var lemmingsSaved: int
    var lemmingsLost: int
    var currentLevel: int
    var gameState: GameState
    var timeRemaining: real
    var availableSkills: SkillCounts

    /**
     * The terrain matches the canvas, the level number indexes the levels
     * unless the game is over, and no lemming or trap is listed twice.
     */
    ghost predicate Valid()
      reads this`terrain, this`currentLevel, this`gameState, this`lemmings
    {
      && terrain.Valid() && terrain.width == width && terrain.height == height
      && 1 <= currentLevel <= |levels| + 1
      && (gameState != GameOver ==> currentLevel <= |levels|)
      && Distinct(lemmings) && Distinct(traps)
    }

    /** What stays fixed for the whole game. */
    ghost function Conf(): Config
    {
      Config(width, height, levels, HazardView(Some(water.Bounds()), TrapRects(traps)))
    }

    /** The game as a value. */
    ghost function View(): World
      reads this, terrain.heights, lemmings, water, traps
    {
      World(terrain.View().heights, States(lemmings), water.Anim(), TrapAnims(traps), spawnTimer,
            lemmingsSaved, lemmingsLost, currentLevel, gameState, timeRemaining, availableSkills)
    }

    /**
     * A new game on a `width` x `height` canvas whose random surface is
     * `base`: level 1 with its clock and skills, no lemmings, one pool of
     * water and two traps.
     */
    constructor (width: nat, height: real, base: seq<real>)
      requires |base| == width
      ensures Valid() && selectedLemming == null && levels == LoadLevels()
      ensures View() == World(Carved(base, width - 100, height - 150.0), [], Animation(0, 0.0),
                              [Animation(0, 0.0), Animation(0, 0.0)], 0.0, 0, 0, 1, Playing, 120.0, DefaultSkills)
      ensures Conf().hz == HazardView(Some(Rect(400.0, 400.0, 100.0, 50.0)),
                                      [Rect(300.0, 300.0, 50.0, 20.0), Rect(500.0, 200.0, 50.0, 20.0)])
    {
      this.width := width;
      this.height := height;
      terrain := new Terrain(width, height, base);
      lemmings := [];
      selectedLemming := null;
      spawnTimer := 0.0;
      lemmingsSaved, lemmingsLost := 0, 0;
      currentLevel := 1;
      gameState := Playing;
      water := new Water(400.0, 400.0, 100.0, 50.0);
      var first := new Trap(300.0, 300.0, 50.0, 20.0);
      var second := new Trap(500.0, 200.0, 50.0, 20.0);
      traps := [first, second];
      var ls := LoadLevels();
      levels := ls;
      timeRemaining := ls[0].timeLimit;
      availableSkills := ls[0].availableSkills;
    }

    /** `spawnLemming`: a new lemming at the spawn point, appended to the list. */
    method SpawnLemming()
      requires Valid()
      modifies this`lemmings
      ensures Valid()
      ensures View() == old(View()).(lemmings := old(View()).lemmings + [Spawned(SpawnX, SpawnY)])
      ensures |lemmings| == |old(lemmings)| + 1 && lemmings == old(lemmings) + [lemmings[|old(lemmings)|]]
      ensures fresh(lemmings[|old(lemmings)|])
    {
      var lemming := new Lemming(SpawnX, SpawnY);
      lemmings := lemmings + [lemming];
      assert States(lemmings) == old(States(lemmings)) + [Spawned(SpawnX, SpawnY)];
    }

    /** `update`: one frame of the game. */
    method Update(dt: real, base: seq<real>)
      requires Valid() && |base| == width
      modifies this, terrain.heights, lemmings, water, traps
      ensures Valid()
      ensures View() == Step(Conf(), old(View()), dt, base)
      ensures selectedLemming == old(selectedLemming)
              || (selectedLemming == null && currentLevel == old(currentLevel) + 1)
    {
      ghost var w := View();
      if gameState != Playing {
        return;
      }
      timeRemaining := timeRemaining - dt / 1000.0;
      if timeRemaining <= 0.0 {
        gameState := GameOver;
        assert View() == w.(timeRemaining := timeRemaining, state := GameOver);
        return;
      }
      StepPlays(Conf(), w, dt, base);
      assert View() == w.(timeRemaining := w.timeRemaining - dt / 1000.0);
      Play(dt, base);
      assert View() == Step(Conf(), w, dt, base);
    }

    /** The rest of `update` once the clock has time left: spawn, animate, tick, filter, check the level. */
    method Play(dt: real, base: seq<real>)
      requires Valid() && |base| == width && gameState == Playing
      modifies this, terrain.heights, lemmings, water, traps
      ensures Valid()
      ensures View() == Frame(Conf(), old(View()), dt, base)
      ensures selectedLemming == old(selectedLemming)
              || (selectedLemming == null && currentLevel == old(currentLevel) + 1)
    {
      SpawnPhase(dt);
      HazardPhase(dt);
      SweepPhase(dt);
      CheckLevel(base);
    }

    /** The spawn timer of `update`: every 2000 ms a lemming is spawned and the timer restarts. */
    method SpawnPhase(dt: real)
      requires Valid()
      modifies this`spawnTimer, this`lemmings
      ensures Valid()
      ensures View() == Spawning(old(View()), dt)
      ensures lemmings == old(lemmings)
              || (|lemmings| == |old(lemmings)| + 1 && lemmings == old(lemmings) + [lemmings[|old(lemmings)|]]
                  && fresh(lemmings[|old(lemmings)|]))
    {
      ghost var w := View();
      spawnTimer := spawnTimer + dt;
      if spawnTimer >= SpawnInterval {
        SpawnLemming();
        spawnTimer := 0.0;
      }
    }

    /** The water and the traps animate. */
    method HazardPhase(dt: real)
      requires Valid()
      modifies water, traps
      ensures Valid()
      ensures View() == Hazarding(old(View()), dt)
    {
      water.Update(dt);
      UpdateTraps(dt);
    }

    /** The lemmings tick and are tallied, then the exited and the dead are filtered out. */
    method SweepPhase(dt: real)
      requires Valid()
      modifies this`lemmingsSaved, this`lemmingsLost, this`lemmings, terrain.heights, lemmings
      ensures Valid()
      ensures View() == Sweeping(Conf(), old(View()), dt)
    {
      ghost var w := View();
      ghost var r := TickAll(w.lemmings, GroundOf(Conf(), w.heights), Conf().hz, dt);
      TickPhase(dt);
      assert View() == Ticked(w, r);
      FilterPhase();
      assert View() == Sweeping(Conf(), w, dt);
    }

    /** Every lemming ticks in list order and the tallies grow; nothing else in the game changes. */
    method TickPhase(dt: real)
      requires Valid()
      modifies this`lemmingsSaved, this`lemmingsLost, terrain.heights, lemmings
      ensures Valid()
      ensures View() == Ticked(old(View()), TickAll(old(View()).lemmings, GroundOf(Conf(), old(View()).heights), Conf().hz, dt))
    {
      ghost var w := View();
      ghost var p := Pass(w.lemmings, GroundOf(Conf(), w.heights), Conf().hz, dt, w.saved, w.lost);
      ghost var r := TickAll(p.before, p.ground, p.hz, dt);
      TickLemmings(dt, p);
      assert water.Anim() == w.water && TrapAnims(traps) == w.traps;
      assert View() == Ticked(w, r);
    }

    /** `lemmings.filter(...)`: the exited and the dead leave the list; nothing else changes. */
    method FilterPhase()
      requires Valid()
      modifies this`lemmings
      ensures Valid()
      ensures View() == old(View()).(lemmings := Survivors(old(View()).lemmings))
    {
      ghost var w := View();
      RemainingSurvivors(lemmings);
      RemainingDistinct(lemmings);
      lemmings := Remaining(lemmings);
      assert States(lemmings) == Survivors(w.lemmings);
      assert water.Anim() == w.water && TrapAnims(traps) == w.traps;
    }

    /** `traps.forEach(trap => trap.update(dt))`. */
    method UpdateTraps(dt: real)
      requires Distinct(traps)
      modifies traps
      ensures TrapAnims(traps) == AnimateTraps(old(TrapAnims(traps)), dt)
    {
      var i := 0;
      while i < |traps|
        invariant 0 <= i <= |traps|
        invariant forall j :: 0 <= j < i ==> traps[j].Anim() == Animate(old(traps[j].Anim()), dt, TrapPeriod, TrapFrames)
        invariant forall j :: i <= j < |traps| ==> traps[j].Anim() == old(traps[j].Anim())
      {
        traps[i].Update(dt);
        i := i + 1;
      }
    }

    /**
     * The `lemmings.forEach` of `update`: each lemming ticks in list order
     * against the terrain as those before it left it, and the saved and lost
     * tallies grow by the lemmings that reach the exit or die.
     */
    method TickLemmings(dt: real, ghost p: Pass)
      requires Valid() && p == Pass(States(lemmings), terrain.View(), Conf().hz, dt, lemmingsSaved, lemmingsLost)
      modifies this`lemmingsSaved, this`lemmingsLost, terrain.heights, lemmings
      ensures Valid()
      ensures var r := TickAll(p.before, p.ground, p.hz, dt);
              && States(lemmings) == r.lemmings && terrain.View() == p.ground.(heights := r.heights)
              && lemmingsSaved == p.saved + ExitedCount(r.lemmings)
              && lemmingsLost == p.lost + DeadCount(r.lemmings)
    {
      ghost var done, heights := TickLoop(dt, p);
      SweptAll(p, done, heights);
    }

    /** The loop of the `forEach`, ending with every lemming ticked. */
    method TickLoop(dt: real, ghost p: Pass) returns (ghost done: seq<LemmingState>, ghost heights: seq<real>)
      requires Valid() && p == Pass(States(lemmings), terrain.View(), Conf().hz, dt, lemmingsSaved, lemmingsLost)
      modifies this`lemmingsSaved, this`lemmingsLost, terrain.heights, lemmings
      ensures Valid() && Swept(p, |lemmings|, done, heights)
    {
      done := [];
      heights := p.ground.heights;
      var k := 0;
      SweptStart(p);
      while k < |lemmings|
        invariant Valid() && Swept(p, k, done, heights)
      {
        done, heights := TickStep(p, k, dt, done, heights);
        k := k + 1;
      }
    }

    /** Before the first lemming ticks, the pass has done nothing. */
    lemma SweptStart(p: Pass)
      requires Valid() && p == Pass(States(lemmings), terrain.View(), Conf().hz, p.dt, lemmingsSaved, lemmingsLost)
      ensures Swept(p, 0, [], p.ground.heights)
    {
      SweptSoFarStart(p);
    }

    /** Once every lemming has ticked, the list, the terrain and the tallies are those of the whole pass. */
    lemma SweptAll(p: Pass, done: seq<LemmingState>, heights: seq<real>)
      requires Swept(p, |lemmings|, done, heights)
      ensures var r := TickAll(p.before, p.ground, p.hz, p.dt);
              && States(lemmings) == r.lemmings && terrain.View() == p.ground.(heights := r.heights)
              && lemmingsSaved == p.saved + ExitedCount(r.lemmings)
              && lemmingsLost == p.lost + DeadCount(r.lemmings)
    {
      SweptSoFarAll(p, States(lemmings), done, heights);
    }

    /**
     * The loop invariant of `TickLoop` after `k` lemmings have ticked: the
     * list is the pass so far, and the terrain and tallies are those the pass
     * has reached.
     */
    ghost predicate Swept(p: Pass, k: nat, done: seq<LemmingState>, heights: seq<real>)
      reads this, lemmings, terrain.heights
    {
      && terrain.Valid() && Distinct(lemmings)
      && SweptSoFar(p, k, States(lemmings), done, heights)
      && terrain.View() == p.ground.(heights := heights)
      && lemmingsSaved == p.saved + ExitedCount(done)
      && lemmingsLost == p.lost + DeadCount(done)
    }

    /** The `k`-th iteration of the loop, carrying its invariant forward. */
    method TickStep(ghost p: Pass, k: nat, dt: real, ghost done: seq<LemmingState>, ghost heights: seq<real>)
      returns (ghost done': seq<LemmingState>, ghost heights': seq<real>)
      requires k < |lemmings| && p.hz == Conf().hz && p.dt == dt && Swept(p, k, done, heights)
      modifies this`lemmingsSaved, this`lemmingsLost, terrain.heights, lemmings[k]
      ensures Swept(p, k + 1, done', heights')
    {
      ghost var now := States(lemmings);
      ghost var o := Tick(now[k], p.ground.(heights := heights), p.hz, p.dt);
      SweptSoFarNext(p, k, now, done, heights);
      TickOne(k, dt, now, p.ground.(heights := heights));
      done', heights' := done + [o.lemming], o.heights;
    }

    /** One iteration of the `forEach`: the `k`-th lemming ticks and is tallied; no other lemming changes. */
    method TickOne(k: nat, dt: real, ghost before: seq<LemmingState>, ghost g: Ground)
      requires terrain.Valid() && Distinct(lemmings) && k < |lemmings|
      requires States(lemmings) == before && terrain.View() == g
      modifies this`lemmingsSaved, this`lemmingsLost, terrain.heights, lemmings[k]
      ensures var o := Tick(before[k], g, Conf().hz, dt);
              && States(lemmings) == before[k := o.lemming] && terrain.View() == g.(heights := o.heights)
              && lemmingsSaved == old(lemmingsSaved) + (if o.lemming.reachedExit then 1 else 0)
              && lemmingsLost == old(lemmingsLost) + (if o.lemming.isDead then 1 else 0)
    {
      var lemming := lemmings[k];
      lemming.Update(terrain, dt, water, traps);
      if lemming.reachedExit {
        lemmingsSaved := lemmingsSaved + 1;
      }
      if lemming.isDead {
        lemmingsLost := lemmingsLost + 1;
      }
      assert forall j :: 0 <= j < |lemmings| && j != k ==> lemmings[j] != lemming;
    }

    /** The level check at the end of `update`. */
    method CheckLevel(base: seq<real>)
      requires Valid() && |base| == width && gameState == Playing
      modifies this
      ensures Valid()
      ensures View() == Progress(Conf(), old(View()), base)
      ensures selectedLemming == old(selectedLemming)
              || (selectedLemming == null && currentLevel == old(currentLevel) + 1)
    {
      if lemmingsSaved >= levels[currentLevel - 1].requiredLemmings {
        currentLevel := currentLevel + 1;
        if currentLevel > |levels| {
          gameState := GameOver;
        } else {
          ResetLevel(base);
        }
      }
    }

    /**
     * `resetLevel`: a fresh terrain from `base`, no lemmings and no
     * selection, and the clock, skills and tallies of the current level.
     */
    method ResetLevel(base: seq<real>)
      requires Valid() && |base| == width && currentLevel <= |levels|
      modifies this
      ensures Valid() && fresh(terrain.heights) && selectedLemming == null
      ensures View() == Restart(Conf(), old(View()), base)
    {
      ghost var w := View();
      NewTerrain(base);
      lemmings := [];
      selectedLemming := null;
      timeRemaining := levels[currentLevel - 1].timeLimit;
      availableSkills := levels[currentLevel - 1].availableSkills;
      lemmingsSaved := 0;
      lemmingsLost := 0;
      assert States(lemmings) == [];
    }

    /** `this.terrain = new Terrain(...)`: a fresh terrain carved from `base`; nothing else changes. */
    method NewTerrain(base: seq<real>)
      requires Valid() && |base| == width
      modifies this`terrain
      ensures Valid() && fresh(terrain.heights)
      ensures View() == old(View()).(heights := Carved(base, width - 100, height - 150.0))
    {
      ghost var w := View();
      terrain := new Terrain(width, height, base);
      assert TrapAnims(traps) == w.traps && water.Anim() == w.water && States(lemmings) == w.lemmings;
    }

    /**
     * The keydown handler as written. Escape pauses a playing game, and no
     * key resumes a paused one, since the handler returns first when the
     * game is not playing. The skill guard looks the lowered key up in the
     * table of full names, so no key ever hands out a skill.
     */
    method KeyDown(key: string)
      requires Valid()
      modifies this`gameState, this`availableSkills, selectedLemming
      ensures Valid()
      ensures old(gameState) != Playing ==> gameState == old(gameState)
      ensures gameState == (if old(gameState) == Playing && key == "Escape" then Paused else old(gameState))
      ensures availableSkills == old(availableSkills)
      ensures selectedLemming != null ==> selectedLemming.State() == old(selectedLemming.State())
    {
      if gameState != Playing {
        return;
      }
      if key == "Escape" {
        gameState := if gameState == Playing then Paused else Playing;
        return;
      }
      if selectedLemming == null {
        return;
      }
      var skill := ToLower(key);
      LetterKeysNeverPass(availableSkills, key);
      if Positive(availableSkills.Get(skill)) {
        var h := Assign(Hand(availableSkills, selectedLemming.skills, selectedLemming.isBlocking), skill);
        availableSkills := h.counts;
        selectedLemming.skills := h.flags;
        selectedLemming.isBlocking := h.blocking;
      }
    }

    /**
     * The keydown handler as evidently intended: Escape toggles between
     * playing and paused, and a skill letter hands its skill to the selected
     * lemming when one of that skill is left.
     */
    method KeyDownIntended(key: string)
      requires Valid()
      modifies this`gameState, this`availableSkills, selectedLemming
      ensures Valid()
      ensures key == "Escape" && old(gameState) == Playing ==> gameState == Paused
      ensures key == "Escape" && old(gameState) == Paused ==> gameState == Playing
      ensures key != "Escape" || old(gameState) == GameOver ==> gameState == old(gameState)
      ensures var letter := ToLower(key);
              if key != "Escape" && old(gameState) == Playing && selectedLemming != null
                 && CanAssign(old(availableSkills), letter)
              then
                var h := Assign(Hand(old(availableSkills), old(selectedLemming.skills), old(selectedLemming.isBlocking)), letter);
                && availableSkills == h.counts
                && selectedLemming.State() == old(selectedLemming.State()).(skills := h.flags, isBlocking := h.blocking)
              else
                && availableSkills == old(availableSkills)
                && (selectedLemming != null ==> selectedLemming.State() == old(selectedLemming.State()))
    {
      if key == "Escape" {
        if gameState == Playing {
          gameState := Paused;
        } else if gameState == Paused {
          gameState := Playing;
        }
        return;
      }
      if gameState != Playing {
        return;
      }
      if selectedLemming == null {
        return;
      }
      var letter := ToLower(key);
      if CanAssign(availableSkills, letter) {
        var h := Assign(Hand(availableSkills, selectedLemming.skills, selectedLemming.isBlocking), letter);
        availableSkills := h.counts;
        selectedLemming.skills := h.flags;
        selectedLemming.isBlocking := h.blocking;
      }
    }

    /**
     * The click handler: in a playing game the selection becomes the first
     * listed lemming whose box holds the point, or none.
     */
    method Click(px: real, py: real)
      modifies this`selectedLemming
      ensures old(gameState) != Playing ==> selectedLemming == old(selectedLemming)
      ensures old(gameState) == Playing ==>
                match FirstHit(States(lemmings), px, py)
                case None => selectedLemming == null
                case Some(i) => selectedLemming == lemmings[i]
    {
      if gameState != Playing {
        return;
      }
      var i := 0;
      while i < |lemmings|
        invariant 0 <= i <= |lemmings|
        invariant forall j :: 0 <= j < i ==> !Hit(lemmings[j].State(), px, py)
      {
        var lemming := lemmings[i];
        if px >= lemming.x && px <= lemming.x + Size && py >= lemming.y && py <= lemming.y + Size {
          selectedLemming := lemming;
          return;
        }
        i := i + 1;
      }
      selectedLemming := null;
    }
  }
}
