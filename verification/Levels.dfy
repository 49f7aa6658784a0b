/** Level thresholds: the table for levels 1 to 10, then 1000 XP a level. */
module Levels {

  function Threshold(level: int): int {
    if level <= 1 then 0
    else if level == 2 then 100 else if level == 3 then 250 else if level == 4 then 500
    else if level == 5 then 800 else if level == 6 then 1200 else if level == 7 then 1700
    else if level == 8 then 2300 else if level == 9 then 3000 else if level == 10 then 4000
    else 4000 + 1000 * (level - 10)
  }

  /** A level fits an amount of XP when its own threshold is reached and the next one is not. */
  predicate Fits(level: int, xp: int) {
    level >= 1 && Threshold(level) <= xp < Threshold(level + 1)
  }

  lemma {:induction false} ThresholdsIncrease(a: int, b: int)
    requires 1 <= a <= b
    ensures Threshold(a) + 100 * (b - a) <= Threshold(b)
    decreases b - a
  {
    if a < b { ThresholdsIncrease(a + 1, b); }
  }

  lemma FittingLevelIsUnique(a: int, b: int, xp: int)
    requires Fits(a, xp) && Fits(b, xp)
    ensures a == b
  {
    if a < b { ThresholdsIncrease(a + 1, b); }
    if b < a { ThresholdsIncrease(b + 1, a); }
  }

  function LevelFrom(level: int, xp: int): (r: int)
    requires level >= 1 && (Threshold(level) <= xp || level == 1)
    ensures r >= level && xp < Threshold(r + 1) && (Threshold(r) <= xp || r == 1)
    decreases xp - Threshold(level + 1)
  {
    if Threshold(level + 1) <= xp then ThresholdsIncrease(level + 1, level + 2); LevelFrom(level + 1, xp) else level
  }

  function LevelForXp(xp: int): (level: int)
    ensures level >= 1
    ensures xp >= 0 ==> Fits(level, xp)
    ensures xp < 0 ==> level == 1
  {
    var level := LevelFrom(1, xp);
    if level > 1 then ThresholdsIncrease(1, level); level else level
  }

  /** levelForXp: count levels up from 1. */
  method ComputeLevelForXp(levelXp: int) returns (lvl: int)
    ensures lvl == LevelForXp(levelXp)
  {
    lvl := 1;
    while Threshold(lvl + 1) <= levelXp
      invariant lvl >= 1 && (Threshold(lvl) <= levelXp || lvl == 1)
      invariant LevelFrom(lvl, levelXp) == LevelFrom(1, levelXp)
      decreases levelXp - Threshold(lvl + 1)
    {
      ThresholdsIncrease(lvl + 1, lvl + 2);
      lvl := lvl + 1;
    }
  }

  lemma LevelIsMonotone(xp: int, more: int)
    requires xp <= more
    ensures LevelForXp(xp) <= LevelForXp(more)
  {
    if xp >= 0 && LevelForXp(more) < LevelForXp(xp) {
      ThresholdsIncrease(LevelForXp(more) + 1, LevelForXp(xp));
    }
  }

  /** From 4000 XP up the level is read off directly. */
  lemma LevelClosedForm(xp: int)
    requires xp >= 4000
    ensures LevelForXp(xp) == 10 + (xp - 4000) / 1000
  {
    FittingLevelIsUnique(LevelForXp(xp), 10 + (xp - 4000) / 1000, xp);
  }

  /** Below that the table decides. */
  lemma LevelByTable(xp: int)
    requires 0 <= xp < 4000
    ensures LevelForXp(xp) ==
              if xp < 100 then 1 else if xp < 250 then 2 else if xp < 500 then 3 else if xp < 800 then 4
              else if xp < 1200 then 5 else if xp < 1700 then 6 else if xp < 2300 then 7 else if xp < 3000 then 8 else 9
  {
    var level := if xp < 100 then 1 else if xp < 250 then 2 else if xp < 500 then 3 else if xp < 800 then 4
                 else if xp < 1200 then 5 else if xp < 1700 then 6 else if xp < 2300 then 7
                 else if xp < 3000 then 8 else 9;
    FittingLevelIsUnique(LevelForXp(xp), level, xp);
  }

  function XpToNextLevel(level: int): int { Threshold(level + 1) - Threshold(level) }

  function XpIntoLevel(xp: int): int { xp - Threshold(LevelForXp(xp)) }

  /** The progress bar is never negative and never full. */
  lemma ProgressWithinLevel(xp: int)
    requires xp >= 0
    ensures 0 <= XpIntoLevel(xp) < XpToNextLevel(LevelForXp(xp))
  {
  }

  /** What is missing in the bar is what takes the user to the next level, and no less does. */
  lemma BarIsWhatIsMissing(xp: int, gain: int)
    requires xp >= 0 && gain >= 0
    ensures LevelForXp(xp + gain) == LevelForXp(xp) <==> gain < XpToNextLevel(LevelForXp(xp)) - XpIntoLevel(xp)
  {
    var level := LevelForXp(xp);
    if xp + gain < Threshold(level + 1) { FittingLevelIsUnique(level, LevelForXp(xp + gain), xp + gain); }
  }

  /** Crossing any number of thresholds at once lands on the level of the new total. */
  lemma GainCrossesThresholds(xp: int, gain: int, level: int)
    requires xp >= 0 && gain >= 0 && LevelForXp(xp) < level
    ensures LevelForXp(xp + gain) >= level <==> gain >= Threshold(level) - xp
  {
    var after := LevelForXp(xp + gain);
    if after >= level { ThresholdsIncrease(level, after); }
    else { ThresholdsIncrease(after + 1, level); }
  }
}
