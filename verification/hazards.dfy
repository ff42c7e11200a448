/** Water and spike traps: fixed rectangles with an animation that advances on a timer. */
module Hazards {

  /** An axis-aligned rectangle: left, top, width, height. */
  datatype Rect = Rect(x: real, y: real, width: real, height: real)

  /** Strict overlap: the two rectangles share area; touching edges do not count. */
  predicate Overlap(a: Rect, b: Rect)
    ensures a.x + a.width <= b.x || a.y + a.height <= b.y ==> !Overlap(a, b)
    ensures Overlap(a, b) ==> a.width + b.width > 0.0 && a.height + b.height > 0.0
  {
    a.x + a.width > b.x && a.x < b.x + b.width && a.y + a.height > b.y && a.y < b.y + b.height
  }

  /** An animation counter: the current frame and the time accumulated towards the next one. */
  datatype Animation = Animation(frame: int, timer: real)

  /**
   * One `update(deltaTime)` of an animation with `frames` frames of `period`
   * ms: the frame moves on by exactly one, cyclically, only when the
   * accumulated time strictly exceeds the period, and the timer then restarts
   * from 0; otherwise only the timer grows.
   */
  function Animate(a: Animation, dt: real, period: real, frames: nat): (r: Animation)
    requires frames > 0
    ensures 0 <= a.frame < frames ==> 0 <= r.frame < frames
    ensures a.timer + dt > period ==> r.timer == 0.0 && r.frame == (a.frame + 1) % frames
    ensures a.timer + dt <= period ==> r == Animation(a.frame, a.timer + dt)
  {
    var t := a.timer + dt;
    if t > period then Animation((a.frame + 1) % frames, 0.0) else Animation(a.frame, t)
  }

  const WaterPeriod: real := 100.0
  const WaterFrames: nat := 4
  const TrapPeriod: real := 200.0
  const TrapFrames: nat := 2

  class Water {
    const x: real
    const y: real
    const width: real
    const height: real
    var animationFrame: int
    var animationTimer: real

    function Bounds(): Rect
    {
      Rect(x, y, width, height)
    }

    ghost function Anim(): Animation
      reads this
    {
      Animation(animationFrame, animationTimer)
    }

    constructor (x: real, y: real, width: real, height: real)
      ensures Bounds() == Rect(x, y, width, height) && Anim() == Animation(0, 0.0)
    {
      this.x, this.y, this.width, this.height := x, y, width, height;
      animationFrame, animationTimer := 0, 0.0;
    }

    method Update(dt: real)
      modifies this
      ensures Anim() == Animate(old(Anim()), dt, WaterPeriod, WaterFrames)
    {
      animationTimer := animationTimer + dt;
      if animationTimer > WaterPeriod {
        animationFrame := (animationFrame + 1) % WaterFrames;
        animationTimer := 0.0;
      }
    }
  }

  class Trap {
    const x: real
    const y: real
    const width: real
    const height: real
    var animationFrame: int
    var animationTimer: real

    function Bounds(): Rect
    {
      Rect(x, y, width, height)
    }

    ghost function Anim(): Animation
      reads this
    {
      Animation(animationFrame, animationTimer)
    }

    constructor (x: real, y: real, width: real, height: real)
      ensures Bounds() == Rect(x, y, width, height) && Anim() == Animation(0, 0.0)
    {
      this.x, this.y, this.width, this.height := x, y, width, height;
      animationFrame, animationTimer := 0, 0.0;
    }

    method Update(dt: real)
      modifies this
      ensures Anim() == Animate(old(Anim()), dt, TrapPeriod, TrapFrames)
    {
      animationTimer := animationTimer + dt;
      if animationTimer > TrapPeriod {
        animationFrame := (animationFrame + 1) % TrapFrames;
        animationTimer := 0.0;
      }
    }
  }

  /** The rectangles of a list of traps. */
  function TrapRects(ts: seq<Trap>): (r: seq<Rect>)
    ensures |r| == |ts| && forall i :: 0 <= i < |ts| ==> r[i] == ts[i].Bounds()
  {
    seq(|ts|, i requires 0 <= i < |ts| => ts[i].Bounds())
  }
}
