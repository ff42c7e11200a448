/** Static level configuration: the `Level` constructor with its defaults, and the three built-in levels. */
module Levels {
  import opened Util
  import opened Skills

  /** The object literal given to `new Level(data)`; a key that is absent reads None. */
  datatype LevelData = LevelData(
    requiredLemmings: Option<int>,
    timeLimit: Option<real>,
    availableSkills: Option<SkillCounts>)

  /** A level: lemmings to save, seconds available, and the skill allotment. */
  datatype Level = Level(requiredLemmings: int, timeLimit: real, availableSkills: SkillCounts)

  const DefaultRequired: int := 5
  const DefaultTimeLimit: real := 120.0
  const DefaultSkills: SkillCounts := SkillCounts(3, 3, 3, 3)

  /** `v || d` on a number: an absent value and 0 are both falsy. */
  function OrInt(v: Option<int>, d: int): (r: int)
    ensures v.Some? && v.value != 0 ==> r == v.value
    ensures v.None? || v.value == 0 ==> r == d
    ensures d != 0 ==> r != 0
  {
    if v.Some? && v.value != 0 then v.value else d
  }

  /** `v || d` on a number of seconds. */
  function OrReal(v: Option<real>, d: real): (r: real)
    ensures v.Some? && v.value != 0.0 ==> r == v.value
    ensures v.None? || v.value == 0.0 ==> r == d
    ensures d != 0.0 ==> r != 0.0
  {
    if v.Some? && v.value != 0.0 then v.value else d
  }

  /**
   * The `Level` constructor. Every object is truthy, so a given skill table
   * is kept whatever it holds; a missing or zero count or time limit falls
   * back to the default, so a level never requires 0 lemmings nor lasts 0 s.
   */
  function MakeLevel(data: LevelData): (l: Level)
    ensures l.requiredLemmings != 0 && l.timeLimit != 0.0
    ensures data.requiredLemmings.Some? && data.requiredLemmings.value != 0 ==>
              l.requiredLemmings == data.requiredLemmings.value
    ensures data.timeLimit.Some? && data.timeLimit.value != 0.0 ==> l.timeLimit == data.timeLimit.value
    ensures data.availableSkills.None? ==> l.availableSkills == DefaultSkills
    ensures data.availableSkills.Some? ==> l.availableSkills == data.availableSkills.value
  {
    Level(
      OrInt(data.requiredLemmings, DefaultRequired),
      OrReal(data.timeLimit, DefaultTimeLimit),
      match data.availableSkills
      case Some(t) => t
      case None => DefaultSkills)
  }

  /**
   * The data of built-in level `n` (1, 2 or 3). Every key is given and no
   * value is 0, so none of the constructor's defaults applies.
   */
  function LevelDataOf(n: int): (d: LevelData)
    ensures d.requiredLemmings.Some? && d.timeLimit.Some? && d.availableSkills.Some?
    ensures d.requiredLemmings.value > 0 && d.timeLimit.value > 0.0
    ensures MakeLevel(d) == Level(d.requiredLemmings.value, d.timeLimit.value, d.availableSkills.value)
  {
    if n == 1 then LevelData(Some(5), Some(120.0), Some(SkillCounts(3, 3, 3, 3)))
    else if n == 2 then LevelData(Some(8), Some(180.0), Some(SkillCounts(4, 4, 4, 4)))
    else LevelData(Some(12), Some(240.0), Some(SkillCounts(5, 5, 5, 5)))
  }

  /**
   * `loadLevels`: three levels, each needing more survivors and allowing more
   * time than the one before, each handing out the same number of every skill.
   */
  function LoadLevels(): (ls: seq<Level>)
    ensures |ls| == 3
    ensures forall i :: 0 <= i < |ls| ==> ls[i].requiredLemmings > 0 && ls[i].timeLimit > 0.0
    ensures forall i :: 0 < i < |ls| ==>
              ls[i - 1].requiredLemmings < ls[i].requiredLemmings && ls[i - 1].timeLimit < ls[i].timeLimit
    ensures forall i, s :: 0 <= i < |ls| ==> ls[i].availableSkills.Count(s) == i + 3
  {
    [MakeLevel(LevelDataOf(1)), MakeLevel(LevelDataOf(2)), MakeLevel(LevelDataOf(3))]
  }
}
