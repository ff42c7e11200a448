/**
 * The destructible terrain: one surface value per integer column, stored in
 * an array and changed in place. Screen convention: a larger value is lower
 * ground; 0 is the top of the screen and `height` the bottom.
 */
module HeightField {
  import opened Util

  /** How far one dig or build call moves a column. */
  const ColumnStep: real := 2.0
  /** Length of the flat corridor carved in front of the exit. */
  const CorridorLength: int := 200

  /** Every column lies between the top of the screen and its bottom. */
  ghost predicate InBounds(hs: seq<real>, bottom: real)
  {
    forall i :: 0 <= i < |hs| ==> 0.0 <= hs[i] <= bottom
  }

  /**
   * `getHeightAt`: the surface under horizontal position `x`. Out of range
   * reads `undefined`, and a stored 0 is falsy as well, so both fall back to
   * the bottom of the screen; the lookup is total.
   */
  function HeightAt(hs: seq<real>, bottom: real, x: real): (h: real)
    ensures 0 <= x.Floor < |hs| && hs[x.Floor] != 0.0 ==> h == hs[x.Floor]
    ensures !(0 <= x.Floor < |hs|) ==> h == bottom
    ensures 0 <= x.Floor < |hs| && hs[x.Floor] == 0.0 ==> h == bottom
    ensures h == 0.0 ==> bottom == 0.0
    ensures InBounds(hs, bottom) ==> h <= bottom
  {
    var i := x.Floor;
    if 0 <= i < |hs| && hs[i] != 0.0 then hs[i] else bottom
  }

  /**
   * The field after `dig(x)`: column floor(x) moves down by one step, never
   * past the bottom; nothing happens outside the field.
   */
  function Dug(hs: seq<real>, bottom: real, x: real): (r: seq<real>)
    ensures |r| == |hs|
    ensures forall i :: 0 <= i < |hs| && i != x.Floor ==> r[i] == hs[i]
    ensures 0 <= x.Floor < |hs| ==> r[x.Floor] == Min(hs[x.Floor] + ColumnStep, bottom)
    ensures InBounds(hs, bottom) ==> InBounds(r, bottom)
    ensures forall i :: 0 <= i < |hs| && hs[i] <= bottom ==> hs[i] <= r[i] <= bottom
  {
    var i := x.Floor;
    if 0 <= i < |hs| then hs[i := Min(hs[i] + ColumnStep, bottom)] else hs
  }

  /**
   * The field after `build(x)`: column floor(x) moves up by one step, never
   * past the top; nothing happens outside the field.
   */
  function Built(hs: seq<real>, bottom: real, x: real): (r: seq<real>)
    ensures |r| == |hs|
    ensures forall i :: 0 <= i < |hs| && i != x.Floor ==> r[i] == hs[i]
    ensures 0 <= x.Floor < |hs| ==> r[x.Floor] == Max(hs[x.Floor] - ColumnStep, 0.0)
    ensures InBounds(hs, bottom) ==> InBounds(r, bottom)
    ensures forall i :: 0 <= i < |hs| && 0.0 <= hs[i] ==> 0.0 <= r[i] <= hs[i]
  {
    var i := x.Floor;
    if 0 <= i < |hs| then hs[i := Max(hs[i] - ColumnStep, 0.0)] else hs
  }

  /**
   * The field after the exit corridor is carved: every column in
   * [exitX - 200, exitX) that exists is set to the exit's level, the others
   * are kept.
   */
  function Carved(hs: seq<real>, exitX: int, exitY: real): (r: seq<real>)
    ensures |r| == |hs|
    ensures forall i :: 0 <= i < |hs| && exitX - CorridorLength <= i < exitX ==> r[i] == exitY
    ensures forall i :: 0 <= i < |hs| && !(exitX - CorridorLength <= i < exitX) ==> r[i] == hs[i]
  {
    seq(|hs|, i requires 0 <= i < |hs| => if exitX - CorridorLength <= i < exitX then exitY else hs[i])
  }

  /**
   * Carving keeps the field on screen when the exit is on screen, and then
   * the ground read anywhere over the corridor is the exit's level.
   */
  lemma CorridorIsFlat(hs: seq<real>, bottom: real, exitX: int, exitY: real, x: real)
    requires InBounds(hs, bottom) && 0.0 < exitY <= bottom
    requires exitX - CorridorLength <= x.Floor < exitX && 0 <= x.Floor < |hs|
    ensures InBounds(Carved(hs, exitX, exitY), bottom)
    ensures HeightAt(Carved(hs, exitX, exitY), bottom, x) == exitY
  {
  }

  /**
   * Digging then building one column gives back its value to within one
   * step; away from the bottom it gives back exactly the value it had.
   */
  lemma DigThenBuild(hs: seq<real>, bottom: real, x: real)
    requires InBounds(hs, bottom) && 0 <= x.Floor < |hs|
    ensures var r := Built(Dug(hs, bottom, x), bottom, x);
            hs[x.Floor] - ColumnStep <= r[x.Floor] <= hs[x.Floor]
    ensures hs[x.Floor] + ColumnStep <= bottom ==> Built(Dug(hs, bottom, x), bottom, x) == hs
  {
  }

  /** What a lemming needs to know about the terrain: the field, its bottom and the exit. */
  datatype Ground = Ground(heights: seq<real>, bottom: real, exitX: int, exitY: real)

  /** The terrain of one level. */
  class Terrain {
    const width: nat
    const height: real
    const heights: array<real>
    const exitX: int
    const exitY: real

    ghost predicate Valid()
    {
      heights.Length == width && exitX == width - 100 && exitY == height - 150.0
    }

    /** The terrain as a value. */
    ghost function View(): Ground
      reads heights
    {
      Ground(heights[..], height, exitX, exitY)
    }

    /**
     * A new terrain of the given canvas size. `base` is the surface the
     * random generator produced; the exit corridor is carved into it.
     */
    constructor (width: nat, height: real, base: seq<real>)
      requires |base| == width
      ensures Valid() && fresh(heights)
      ensures this.width == width && this.height == height
      ensures heights[..] == Carved(base, exitX, exitY)
    {
      this.width := width;
      this.height := height;
      this.exitX := width - 100;
      this.exitY := height - 150.0;
      this.heights := new real[width](i requires 0 <= i < width => base[i]);
      new;
      assert heights[..] == base;
      CarveExitPath();
    }

    /** The corridor loop of `generateTerrain`. */
    method CarveExitPath()
      requires Valid()
      modifies heights
      ensures heights[..] == Carved(old(heights[..]), exitX, exitY)
    {
      var x := exitX - CorridorLength;
      while x < exitX
        invariant exitX - CorridorLength <= x <= exitX
        invariant forall i :: 0 <= i < heights.Length ==>
                    heights[i] == if exitX - CorridorLength <= i < x then exitY else old(heights[i])
      {
        if 0 <= x < width {
          heights[x] := exitY;
        }
        x := x + 1;
      }
    }

    /** `getHeightAt` on this terrain. */
    function GetHeightAt(x: real): real
      reads heights
    {
      HeightAt(heights[..], height, x)
    }

    /** `dig`: lower the surface at column floor(x) by one step, clamped to the bottom. */
    method Dig(x: real)
      requires Valid()
      modifies heights
      ensures heights[..] == Dug(old(heights[..]), height, x)
    {
      var index := x.Floor;
      if 0 <= index < width {
        heights[index] := Min(heights[index] + ColumnStep, height);
      }
    }

    /** `build`: raise the surface at column floor(x) by one step, clamped to the top. */
    method Build(x: real)
      requires Valid()
      modifies heights
      ensures heights[..] == Built(old(heights[..]), height, x)
    {
      var index := x.Floor;
      if 0 <= index < width {
        heights[index] := Max(heights[index] - ColumnStep, 0.0);
      }
    }
  }
}
