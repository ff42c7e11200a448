/**
 * The four skills a player can hand out: the flags a lemming carries
 * (`lemming.skills`) and the per-level remaining counts (`availableSkills`).
 */
module Skills {
  import opened Util

  datatype Skill = Digger | Builder | Climber | Blocker

  /** The name under which the source stores a skill, in both tables. */
  function Name(s: Skill): string
  {
    match s
    case Digger => "digger"
    case Builder => "builder"
    case Climber => "climber"
    case Blocker => "blocker"
  }

  /** The skill flags of one lemming; a flag is only ever switched on. */
  datatype SkillFlags = SkillFlags(digger: bool, builder: bool, climber: bool, blocker: bool)
  {
    predicate Has(s: Skill)
    {
      match s
      case Digger => digger
      case Builder => builder
      case Climber => climber
      case Blocker => blocker
    }

    /** Switch on the flag of `s`, as `lemming.skills.<name> = true`. */
    function With(s: Skill): (r: SkillFlags)
      ensures r.Has(s)
      ensures forall t :: t != s ==> r.Has(t) == Has(t)
    {
      match s
      case Digger => this.(digger := true)
      case Builder => this.(builder := true)
      case Climber => this.(climber := true)
      case Blocker => this.(blocker := true)
    }
  }

  const NoSkills := SkillFlags(false, false, false, false)

  /** The remaining count of each skill for the current level. */
  datatype SkillCounts = SkillCounts(digger: int, builder: int, climber: int, blocker: int)
  {
    function Count(s: Skill): int
    {
      match s
      case Digger => digger
      case Builder => builder
      case Climber => climber
      case Blocker => blocker
    }

    /**
     * Property access by a string key, `availableSkills[key]`: only the four
     * stored names give a count; no other key reads a positive number.
     */
    function Get(key: string): (r: Option<int>)
      ensures r.Some? <==> key in {"digger", "builder", "climber", "blocker"}
      ensures forall s :: key == Name(s) ==> r == Some(Count(s))
    {
      if key == "digger" then Some(digger)
      else if key == "builder" then Some(builder)
      else if key == "climber" then Some(climber)
      else if key == "blocker" then Some(blocker)
      else None
    }

    /** Use up one of `s`, as `availableSkills.<name>--`. */
    function Spend(s: Skill): (r: SkillCounts)
      ensures r.Count(s) == Count(s) - 1
      ensures forall t :: t != s ==> r.Count(t) == Count(t)
    {
      match s
      case Digger => this.(digger := digger - 1)
      case Builder => this.(builder := builder - 1)
      case Climber => this.(climber := climber - 1)
      case Blocker => this.(blocker := blocker - 1)
    }
  }
}
