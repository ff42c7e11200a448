/**
 * The pure parts of the input handlers: lower-casing the key, the skill
 * table lookup and its guard, the `switch` that hands out a skill, and the
 * `find` that picks the clicked lemming.
 */
module Controls {
  import opened Util
  import opened Skills
  import opened Levels
  import opened Lemmings

  /** `toLowerCase` on one character, ASCII letters only. */
  function LowerChar(ch: char): (r: char)
    ensures 'A' <= ch <= 'Z' ==> r as int == ch as int + 32
    ensures !('A' <= ch <= 'Z') ==> r == ch
    ensures !('A' <= r <= 'Z')
  {
    if 'A' <= ch <= 'Z' then (ch as int + 32) as char else ch
  }

  /** `key.toLowerCase()`: every character lowered, the length kept. */
  function ToLower(s: string): (r: string)
    ensures |r| == |s|
    ensures forall i :: 0 <= i < |s| ==> r[i] == LowerChar(s[i])
  {
    seq(|s|, i requires 0 <= i < |s| => LowerChar(s[i]))
  }

  /** `v > 0` where an absent value is `undefined`, which compares false. */
  predicate Positive(v: Option<int>)
    ensures Positive(v) ==> v.Some?
  {
    v.Some? && v.value > 0
  }

  /** The case labels of the `switch`: d, b, c and x. */
  function LetterSkill(letter: string): (r: Option<Skill>)
    ensures r == Some(Digger) <==> letter == "d"
    ensures r == Some(Builder) <==> letter == "b"
    ensures r == Some(Climber) <==> letter == "c"
    ensures r == Some(Blocker) <==> letter == "x"
  {
    if letter == "d" then Some(Digger)
    else if letter == "b" then Some(Builder)
    else if letter == "c" then Some(Climber)
    else if letter == "x" then Some(Blocker)
    else None
  }

  /** What the skill handler changes: the remaining counts, the lemming's flags and its blocking flag. */
  datatype Hand = Hand(counts: SkillCounts, flags: SkillFlags, blocking: bool)

  /**
   * The `switch` body: a case letter spends one of its skill, switches on the
   * lemming's flag and, for a blocker, makes it block; any other string
   * changes nothing.
   */
  function Assign(h: Hand, letter: string): (r: Hand)
    ensures LetterSkill(letter).None? ==> r == h
    ensures LetterSkill(letter).Some? ==>
              var s := LetterSkill(letter).value;
              && r.counts.Count(s) == h.counts.Count(s) - 1
              && (forall t :: t != s ==> r.counts.Count(t) == h.counts.Count(t))
              && r.flags.Has(s) && (forall t :: t != s ==> r.flags.Has(t) == h.flags.Has(t))
              && r.blocking == (h.blocking || s == Blocker)
  {
    match LetterSkill(letter)
    case None => h
    case Some(s) => Hand(h.counts.Spend(s), h.flags.With(s), if s == Blocker then true else h.blocking)
  }

  /**
   * The guard `availableSkills[key.toLowerCase()] > 0` never holds for a
   * case letter: the table is keyed by full skill names, so the lookup of
   * d, b, c or x reads `undefined`. Whenever the guard does hold the `switch`
   * therefore changes nothing, and pressing a skill key never hands out a skill.
   */
  lemma LetterKeysNeverPass(counts: SkillCounts, key: string)
    ensures LetterSkill(ToLower(key)).Some? ==> !Positive(counts.Get(ToLower(key)))
    ensures forall h :: Positive(counts.Get(ToLower(key))) ==> Assign(h, ToLower(key)) == h
  {
  }

  /** The concrete case: with three diggers left, key `d` still finds no entry in the table. */
  lemma DiggerKeyIgnored()
    ensures LetterSkill(ToLower("d")) == Some(Digger)
    ensures DefaultSkills.Count(Digger) == 3
    ensures !Positive(DefaultSkills.Get(ToLower("d")))
  {
    assert ToLower("d") == "d";
  }

  /** The guard as evidently intended: look the letter's skill up under its full name. */
  predicate CanAssign(counts: SkillCounts, letter: string)
    ensures CanAssign(counts, letter) ==> letter in {"d", "b", "c", "x"}
  {
    LetterSkill(letter).Some? && Positive(counts.Get(Name(LetterSkill(letter).value)))
  }

  /**
   * With the intended guard, a case letter passes exactly when its skill has
   * a positive count left, and handing it out never drives a count below 0.
   */
  lemma IntendedGuard(h: Hand, letter: string)
    ensures CanAssign(h.counts, letter) <==> LetterSkill(letter).Some? && h.counts.Count(LetterSkill(letter).value) > 0
    ensures CanAssign(h.counts, letter) && (forall s :: h.counts.Count(s) >= 0) ==>
              forall s :: Assign(h, letter).counts.Count(s) >= 0
  {
  }

  /** The click test: the point lies in the lemming's 20 x 20 box, edges included. */
  predicate Hit(s: LemmingState, px: real, py: real)
    ensures px == s.x && py == s.y ==> Hit(s, px, py)
    ensures px == s.x + Size && py == s.y + Size ==> Hit(s, px, py)
    ensures px < s.x || py > s.y + Size ==> !Hit(s, px, py)
  {
    px >= s.x && px <= s.x + Size && py >= s.y && py <= s.y + Size
  }

  /** `lemmings.find(...)`: the position of the first lemming under the point, if any. */
  function FirstHit(ss: seq<LemmingState>, px: real, py: real): (r: Option<nat>)
    ensures r.Some? ==> r.value < |ss| && Hit(ss[r.value], px, py)
    ensures r.Some? ==> forall j :: 0 <= j < r.value ==> !Hit(ss[j], px, py)
    ensures r.None? <==> forall j :: 0 <= j < |ss| ==> !Hit(ss[j], px, py)
    decreases |ss|
  {
    if ss == [] then None
    else if Hit(ss[0], px, py) then Some(0)
    else
      match FirstHit(ss[1..], px, py)
      case None => None
      case Some(i) => Some(i + 1)
  }
}
