# lemmings2d, modelled in Dafny

This project models the simulation core of the 2D Lemmings clone in
`lemmings2d/game.js`. It covers the following parts of the game:

- The destructible terrain: one surface height per column, which can be read, dug and built, plus the flat corridor carved in front of the exit.
- The animated water and spike traps.
- The `Level` constructor with its `||` defaults, and the three built-in levels.
- One lemming's `update` and its `checkCollisions`.
- The `Game` object's `update`, `spawnLemming`, `resetLevel` and `loadLevels`, and the bodies of the keydown and click handlers.

There are two layers:

- **Values.** Pure functions say what one step does to values:
  - `Tick` for one lemming;
  - `TickAll` for the pass over the list;
  - `Step` for a whole frame of the game.
- **Objects.** Classes change fields and arrays in place, as the source does:
  - `Terrain`, `Water`, `Trap`, `Lemming` and `Game`.

Each method is proved to leave exactly the state its function gives. The game's invariants are lemmas about the functions:

- the terrain stays on screen;
- the listed lemmings are still on their way;
- every lemming is counted once as survivor, saved or lost;
- the level only moves up by one;
- animation frames stay in range.

Numbers are unbounded reals. Screen coordinates grow downwards, so a larger height is lower ground.

Modules, in dependency order:

- `Util`
- `Skills`
- `Levels`
- `HeightField`
- `Hazards`
- `Lemmings`
- `World`, the frame as a value
- `Controls`, the pure parts of the handlers
- `Simulation`, the `Game` class

## Model

| member | source | states |
|---|---|---|
| Skills.SkillFlags.With | lemmings2d/game.js:498 | Granting a skill switches on its flag and leaves every other flag as it was. |
| Skills.SkillCounts.Get | lemmings2d/game.js:495 | Indexing the skill table by a string finds a count only under the four full skill names; no other key reads a positive number. |
| Skills.SkillCounts.Spend | lemmings2d/game.js:499 | Spending a skill lowers that skill's count by exactly one; the other counts are unchanged. |
| Levels.OrInt | lemmings2d/game.js:99 | The logical-or default on a count: a present non-zero value is kept; an absent value or 0 gives the default; a non-zero default never yields 0. |
| Levels.OrReal | lemmings2d/game.js:100 | The same logical-or default on the time limit. |
| Levels.MakeLevel | lemmings2d/game.js:96-107 | A level never needs 0 lemmings and never lasts 0 s. Given non-zero values are kept. Any given skill object is kept, because objects are truthy. Without one, three of each skill are allotted. |
| Levels.LevelDataOf | lemmings2d/game.js:450-479 | Each built-in level gives all three keys with non-zero values, so the `Level` constructor keeps them and none of its defaults applies. |
| Levels.LoadLevels | lemmings2d/game.js:448-481 | Three levels with positive requirements and time limits, each needing more lemmings and allowing more time than the one before. Level i hands out i+3 of every skill. |
| HeightField.HeightAt | lemmings2d/game.js:375-378 | Reads the column under floor(x). Out of range, and also when the stored value is 0 (falsy), it falls back to the canvas height. On an on-screen field the result is never below the bottom. |
| HeightField.Dug | lemmings2d/game.js:380-385 | Lowers only column floor(x), by 2, never past the bottom. Every other column is kept, and the field stays on screen. |
| HeightField.Built | lemmings2d/game.js:387-392 | Raises only column floor(x), by 2, never above 0. Every other column is kept, and the field stays on screen. |
| HeightField.Carved | lemmings2d/game.js:366-372 | Every existing column in [exitX-200, exitX) is set to exitY; all others are kept. |
| HeightField.CorridorIsFlat | lemmings2d/game.js:366-378 | After carving with an on-screen exit, the field stays on screen and the ground read anywhere over the corridor is exactly the exit's level. |
| HeightField.DigThenBuild | lemmings2d/game.js:380-392 | Digging then building a column restores it to within one step, and exactly if it lies at least 2 above the bottom. |
| HeightField.Terrain.constructor | lemmings2d/game.js:336-344 | Records width, height, exitX = width-100 and exitY = height-150. The stored field is the carved base surface. |
| HeightField.Terrain.CarveExitPath | lemmings2d/game.js:366-372 | The loop writes exactly `Carved` of the old field into the array. |
| HeightField.Terrain.Dig | lemmings2d/game.js:380-385 | The array afterwards holds `Dug` of its old contents. |
| HeightField.Terrain.Build | lemmings2d/game.js:387-392 | The array afterwards holds `Built` of its old contents. |
| Hazards.Animate | lemmings2d/game.js:120-126 | The frame advances by one, cyclically, exactly when the accumulated time exceeds the period; the timer then restarts at 0. Otherwise only the timer grows. A frame in range stays in range. |
| Hazards.Water.constructor | lemmings2d/game.js:110-118 | Stores the rectangle and starts at frame 0 with timer 0. |
| Hazards.Water.Update | lemmings2d/game.js:120-126 | The water's animation becomes `Animate` with 100 ms periods over 4 frames. |
| Hazards.Trap.constructor | lemmings2d/game.js:145-153 | Stores the rectangle and starts at frame 0 with timer 0. |
| Hazards.Trap.Update | lemmings2d/game.js:155-160 | The trap's animation becomes `Animate` with 200 ms periods over 2 frames. |
| Hazards.Overlap | lemmings2d/game.js:215-216 | The strict box test used for water and traps: boxes that only touch along an edge do not overlap, and overlapping boxes have positive combined width and height. |
| Hazards.TrapRects | lemmings2d/game.js:223-226 | The rectangles the collision test reads, one per trap, in order. |
| Lemmings.Spawned | lemmings2d/game.js:180-203 | A new lemming stands where it was created, faces right, has no skills, is neither blocking nor finished, and is steady. |
| Lemmings.Frozen | lemmings2d/game.js:206 | The early return of `update`: every exited or dead lemming is frozen. |
| Lemmings.HitsHazard | lemmings2d/game.js:214-232 | Without water and traps no lemming is ever hit. |
| Lemmings.Move | lemmings2d/game.js:234-251 | Only x, y, the climbing flag and the climb counter change, and y never goes up and falls at most 2. |
| Lemmings.Land | lemmings2d/game.js:265-289 | After landing the lemming's feet are never below the surface read under it, it never moves down, and only y and the dig, build and climb state change. |
| Lemmings.AtExit | lemmings2d/game.js:257-258 | The exit box is closed: the exit point and its corner at +20/-20 count. A lemming more than 20 right of or above the exit is not there. |
| Lemmings.Animated | lemmings2d/game.js:208-212 | The animation step changes only the animation, and keeps the frame in range. |
| Lemmings.MoveRules | lemmings2d/game.js:234-251 | The lemming walks 2 only when neither climbing, digging nor building, and falls 2 only when neither climbing nor digging. The climb counter grows by 2 and, at 100, climbing ends with the counter at 0. Nothing else changes, and an even, in-range counter stays so. |
| Lemmings.Worked | lemmings2d/game.js:291-299 | Digging then building keeps the field's size and keeps it on screen. |
| Lemmings.WorkedFrame | lemmings2d/game.js:291-299 | Only the column under the lemming changes, and nothing changes when neither flag is set. |
| Lemmings.Collide | lemmings2d/game.js:264-306 | `checkCollisions` keeps the field's size and keeps it on screen. |
| Lemmings.CollideRules | lemmings2d/game.js:264-306 | (1) A lemming whose feet are below the surface ends exactly on it. (2) Digging and building only switch on, on landing with the skill. (3) Climbing starts only on landing with the skill when the ground ahead reads greater, and then from 0. (4) The column is worked while the flags are set. (5) The lemming dies exactly when it ends below the bottom, which cannot happen on an on-screen field. (6) Position x, direction, skills, blocking, exit and animation are kept. |
| Lemmings.Arrive | lemmings2d/game.js:256-261 | The exit flag becomes set exactly when the lemming is within 20 of the exit on both axes (or already was). Nothing else changes. |
| Lemmings.Advance | lemmings2d/game.js:214-261 | The part of `update` after the animation keeps the field's size and keeps it on screen. |
| Lemmings.AdvanceRules | lemmings2d/game.js:214-261 | A lemming touching a hazard dies in place and leaves the terrain alone. Direction, skills and blocking are kept, and behaviours are only switched on with their skills. The terrain changes at most under the lemming. On an on-screen field a live lemming never ends both exited and dead. |
| Lemmings.Tick | lemmings2d/game.js:205-262 | One `update` keeps the field's size and keeps it on screen. |
| Lemmings.TickRules | lemmings2d/game.js:205-262 | A blocking, exited or dead lemming, and the terrain, stay exactly as they were. Otherwise: the animation advances; hazard contact kills in place; direction, skills and blocking never change; dig/build flags never switch off and switch on only with the skill; steadiness is kept; the terrain changes at most under the lemming; exited and dead are never both set. |
| Lemmings.TickAll | lemmings2d/game.js:560-570 | One pass in list order, each lemming seeing the terrain its predecessors left. It keeps list and field sizes, and the field stays on screen. |
| Lemmings.TickLast | lemmings2d/game.js:560-570 | The last lemming of a non-empty list ticks after all the others, with the same size and bounds guarantees. |
| Lemmings.SweepStep | lemmings2d/game.js:560-561 | The k-th lemming of a pass ends as one tick takes it, against the terrain left by lemmings 0..k-1. |
| Lemmings.SweepPrefix | lemmings2d/game.js:560-561 | The terrain after k+1 lemmings is what the k-th lemming's tick leaves. |
| Lemmings.SweepExtend | lemmings2d/game.js:560-561 | Passing over one more lemming appends its tick to the pass so far. |
| Lemmings.SweepKeeps | lemmings2d/game.js:560-570 | A pass leaves frozen lemmings unchanged, keeps lemmings steady, and never makes one both exited and dead. |
| Lemmings.Lemming.constructor | lemmings2d/game.js:180-203 | A new lemming faces right, has no skills or behaviours, and starts at frame 0 with a climb counter of 0. |
| Lemmings.Lemming.Update | lemmings2d/game.js:205-262 | The object and the terrain array end exactly as `Tick` says. |
| Lemmings.Lemming.Proceed | lemmings2d/game.js:214-261 | The object and the terrain array end exactly as `Advance` says. |
| Lemmings.Lemming.TouchesHazard | lemmings2d/game.js:214-232 | Returns true exactly when the lemming's box strictly overlaps the water or some trap. |
| Lemmings.Lemming.Walk | lemmings2d/game.js:234-251 | The object ends as `Move` says. |
| Lemmings.Lemming.CheckCollisions | lemmings2d/game.js:264-306 | The object and the terrain array end exactly as `Collide` says. |
| Lemmings.Lemming.LandOn | lemmings2d/game.js:265-289 | The object ends as `Land` says. |
| World.ExitedCount | lemmings2d/game.js:562-563 | The saved tally of a list never exceeds its length. |
| World.DeadCount | lemmings2d/game.js:566-567 | The lost tally of a list never exceeds its length. |
| World.Survivors | lemmings2d/game.js:574-577 | The filter's result is no longer than its input, and every kept lemming has neither exited nor died. |
| World.NoneCounted | lemmings2d/game.js:560-577 | A tally is 0 exactly when no lemming in the list has exited (resp. died). |
| World.SurvivorsKept | lemmings2d/game.js:574-577 | The filter keeps exactly the lemmings still on their way: nothing else, and none of them is dropped. |
| World.TalliesGrow | lemmings2d/game.js:562-568 | Each lemming that exits or dies adds one to the matching tally. |
| World.Accounted | lemmings2d/game.js:560-577 | If no lemming is both exited and dead, survivors + saved + lost equals the list's length. |
| World.GroundOf | lemmings2d/game.js:336-341 | The terrain a lemming sees has the canvas height as its bottom and the exit at (width-100, height-150), the point the exit check reads. |
| World.Spawning | lemmings2d/game.js:551-555 | When the timer reaches 2000 ms, one new lemming is appended at (50, 0) and the timer restarts at 0. Otherwise only the timer grows. Nothing else changes. |
| World.AnimateTraps | lemmings2d/game.js:558 | Every trap animates independently, in place of its old state. |
| World.Hazarding | lemmings2d/game.js:557-558 | Only the water and trap animations change, the number of traps is kept, and every frame stays in range. |
| World.Sweeping | lemmings2d/game.js:560-577 | Only the terrain, the lemmings and the tallies change. The list never grows, the field keeps its size, and the tallies never go down. |
| World.Progress | lemmings2d/game.js:579-587 | The level goes up by one exactly when the saved tally reaches the requirement, and otherwise nothing changes. The game either keeps its state or is over. |
| World.Step | lemmings2d/game.js:542-549 | `Game.update` on values: a game that is not playing is left as it is. A playing game whose clock falls to 0 or below is over, with the clock at its new value and nothing else changed. |
| World.Frame | lemmings2d/game.js:551-587 | The rest of a frame moves the level by at most one, and either keeps the game's state or ends the game. |
| World.Restart | lemmings2d/game.js:590-598 | A new level gets a freshly carved terrain, no lemmings, zero tallies, and its own clock and skills. The level, state, spawn timer and animations carry over. |
| World.StepPlays | lemmings2d/game.js:545-588 | With time left, the frame spawns, animates, ticks, filters and checks the level, on the updated clock. |
| World.CarvedFits | lemmings2d/game.js:336-344 | An on-screen base surface carved for a canvas at least 150 tall stays on screen, at the canvas width. |
| World.SweepingKeeps | lemmings2d/game.js:560-577 | The pass plus the filter keeps the field on screen and the listed lemmings on their way and steady. The tallies only grow, and every lemming is counted exactly once. |
| World.StepKeeps | lemmings2d/game.js:542-598 | A whole frame keeps the game's invariant: the field at canvas width and on screen, the level in range, the listed lemmings live and steady, and the tallies non-negative. |
| World.StepAnims | lemmings2d/game.js:557-558 | A frame keeps every water and trap animation frame in range. |
| World.ProgressLevels | lemmings2d/game.js:579-587 | The level goes up by one exactly when the saved tally reaches the requirement. A new level starts empty with its own clock, skills and terrain. Past the last level the game is over. Otherwise nothing changes. |
| World.StepLevels | lemmings2d/game.js:542-588 | Over a frame the level changes at most by +1, and only in a playing game with time left, through the level check. |
| World.StepEnds | lemmings2d/game.js:542-588 | Only a playing game changes. It ends only by timeout or by finishing the last level, and `update` never pauses a game. |
| Controls.LowerChar | lemmings2d/game.js:494 | An uppercase ASCII letter maps to its lowercase form; other characters are kept. The result is never uppercase. |
| Controls.ToLower | lemmings2d/game.js:494 | Lowercases every character and keeps the length. |
| Controls.LetterSkill | lemmings2d/game.js:496-513 | The switch's case labels d, b, c and x, each mapped to its skill, and both directions of each. |
| Controls.Assign | lemmings2d/game.js:496-514 | A case letter spends one of its skill, switches on only that flag, and makes the lemming block only for x. Any other key changes nothing. |
| Controls.LetterKeysNeverPass | lemmings2d/game.js:494-495 | As written, the guard fails for every case letter. Whenever it does pass, the switch changes nothing. |
| Controls.DiggerKeyIgnored | lemmings2d/game.js:494-499 | A concrete witness: key `d` with three diggers left still fails the guard. |
| Controls.IntendedGuard | lemmings2d/game.js:495-514 | With the corrected guard, a letter passes exactly when its skill has a positive count, and no count ever becomes negative. |
| Controls.Positive | lemmings2d/game.js:495 | `> 0` on a possibly undefined value: an absent value never passes. |
| Controls.CanAssign | lemmings2d/game.js:495-513 | The corrected guard passes only for the case letters d, b, c and x. |
| Controls.Hit | lemmings2d/game.js:527-528 | The click box is closed: both corners of the lemming's box count, and points left of or below the box do not. |
| Controls.FirstHit | lemmings2d/game.js:526-529 | `find`: the first lemming whose box (edges included) holds the point, or none exactly when no box does. |
| Simulation.States | lemmings2d/game.js:424 | The states of the listed lemming objects, in list order. |
| Simulation.TrapAnims | lemmings2d/game.js:436-439 | The animation states of the traps, in order. |
| Simulation.Remaining | lemmings2d/game.js:574-577 | The filter keeps only objects from the list that have neither exited nor died. |
| Simulation.RemainingSurvivors | lemmings2d/game.js:574-577 | The filter on objects keeps exactly the states `Survivors` keeps, in order. |
| Simulation.RemainingDistinct | lemmings2d/game.js:574-577 | The filter never lists an object twice. |
| Simulation.SweptSoFarStart | lemmings2d/game.js:560 | Before any lemming ticks, the pass has done nothing. |
| Simulation.SweptSoFarNext | lemmings2d/game.js:560-569 | Ticking the next lemming extends the pass by one and adds its exit or death to the tallies. |
| Simulation.SweptSoFarAll | lemmings2d/game.js:560-570 | After the last lemming, the list and terrain are the result of the whole pass. |
| Simulation.Game.constructor | lemmings2d/game.js:420-446 | A new game is at level 1, playing, with that level's 120 s clock and skills, no lemmings and a carved terrain. The water is at (400,400,100,50) and the traps at (300,300,50,20) and (500,200,50,20). |
| Simulation.Game.SpawnLemming | lemmings2d/game.js:537-540 | One fresh lemming at (50, 0) is appended to the list; nothing else changes. |
| Simulation.Game.Update | lemmings2d/game.js:542-588 | The game ends exactly as `Step` says, and the selection changes only when a new level clears it. |
| Simulation.Game.Play | lemmings2d/game.js:551-588 | The rest of a frame with time left ends as `Frame` says. |
| Simulation.Game.SpawnPhase | lemmings2d/game.js:551-555 | The game ends as `Spawning` says. |
| Simulation.Game.HazardPhase | lemmings2d/game.js:557-558 | The game ends as `Hazarding` says. |
| Simulation.Game.SweepPhase | lemmings2d/game.js:560-577 | The game ends as `Sweeping` says. |
| Simulation.Game.TickPhase | lemmings2d/game.js:560-570 | The lemmings and terrain end as `TickAll` says, and the tallies grow by the exited and the dead. |
| Simulation.Game.FilterPhase | lemmings2d/game.js:574-577 | The lemming list becomes its survivors; nothing else changes. |
| Simulation.Game.UpdateTraps | lemmings2d/game.js:558 | Every trap ends as `AnimateTraps` says. |
| Simulation.Game.TickLemmings | lemmings2d/game.js:560-570 | The in-place `forEach` agrees with `TickAll`, including the tallies. |
| Simulation.Game.TickLoop | lemmings2d/game.js:560-570 | When the loop ends, every lemming has ticked, and the loop invariant `Swept` holds for the whole list. |
| Simulation.Game.SweptStart | lemmings2d/game.js:560 | The loop invariant holds before the first iteration. |
| Simulation.Game.SweptAll | lemmings2d/game.js:560-570 | At the end of the loop, the invariant gives the whole pass and its tallies. |
| Simulation.Game.TickStep | lemmings2d/game.js:561-569 | One iteration carries the loop invariant from k to k+1. |
| Simulation.Game.TickOne | lemmings2d/game.js:561-569 | Only the k-th lemming and the terrain change, as its tick says. The tallies grow by its exit and death. |
| Simulation.Game.CheckLevel | lemmings2d/game.js:579-587 | The game ends as `Progress` says. |
| Simulation.Game.ResetLevel | lemmings2d/game.js:590-598 | The game ends as `Restart` says, with a fresh terrain array and no selection. |
| Simulation.Game.NewTerrain | lemmings2d/game.js:591 | A fresh carved terrain replaces the old one; nothing else in the game changes. |
| Simulation.Game.KeyDown | lemmings2d/game.js:484-517 | As written: only a playing game reacts, Escape pauses it and nothing unpauses it, and no key changes the skill counts or the selected lemming. |
| Simulation.Game.KeyDownIntended | lemmings2d/game.js:484-517 | As intended: Escape toggles between playing and paused. A skill letter in a playing game with a selected lemming and a positive count hands out that skill exactly as `Assign` says. Otherwise nothing changes. |
| Simulation.Game.Click | lemmings2d/game.js:519-534 | In a playing game the selection becomes the first listed lemming under the point, or none. Otherwise it is unchanged. |

## Left out

- Drawing, the canvas, the DOM, sound and music (`SoundManager`), the particle system, `gameLoop` and `requestAnimationFrame` are not modelled. The `soundManager` argument of `Lemming.update` and the particle emits in `update` have no effect on the simulated state.
- Random terrain generation (`generateTerrain`'s sine curve and hills, lines 345-364) is not modelled. The generated surface is the parameter `base` of the terrain and game constructors and of `update`, which uses it when a level restarts. Only the corridor carve is modelled.
- The click handler's conversion from client to canvas coordinates is left out; the handler takes canvas coordinates.
- Numbers are unbounded reals, not IEEE doubles. NaN, infinities and rounding are not modelled.
- Controls.LowerChar: lowercases ASCII letters only; JavaScript's full Unicode case mapping is not modelled.
- The `y` argument of `dig` and `build` is unused by the source and is dropped.
- `find` returns `undefined` when no lemming is hit; the model stores `null`, which behaves the same in every test the source makes.
- The selection is not cleared when the filter removes the selected lemming; the model keeps the object, as the source does.
- The exit corridor is 200 columns long; `pathWidth` (40, game.js:367) is never used.
- Finished lemmings are tallied and removed in the same `update` call (lines 560-577).
- Escape cannot resume a paused game (line 485).
- The climb trigger compares the ground one body ahead with the lemming's feet using `>`. In screen coordinates that detects a drop, not a wall; it is modelled as written.
- Blockers are not obstacles to other lemmings, as in the source.
- lemmings3d is not part of this model.

## Findings

| source | as written | input that shows it | evidently intended | confidence | as-written member | corrected member |
|---|---|---|---|---|---|---|
| lemmings2d/game.js:494-495 | The guard indexes `availableSkills`, whose keys are `digger`, `builder`, `climber` and `blocker`, with the lowercased key itself. So `d`, `b`, `c` and `x` all read `undefined`, and `undefined > 0` is false. | Level 1 with three diggers and a selected lemming; press `d`. No skill is handed out and the count stays 3. | Look up the count under the case letter's skill name, and hand the skill out when it is positive. | high, not executed | Controls.LetterKeysNeverPass, Controls.DiggerKeyIgnored, Simulation.Game.KeyDown | Simulation.Game.KeyDownIntended, Controls.IntendedGuard |
| lemmings2d/game.js:485-490 | The handler returns at once unless the game is playing, so the `'paused' → 'playing'` branch of the Escape toggle is unreachable. | Press Escape twice while playing: the first press pauses and the second does nothing. | Escape toggles between playing and paused. | high, not executed | Simulation.Game.KeyDown | Simulation.Game.KeyDownIntended |
