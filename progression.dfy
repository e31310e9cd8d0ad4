/** The user-progression store of src/contexts/UserContext.tsx: experience
    points, the level derived from them (1000 XP per level), the XP still
    needed for the next level, and the completed-quest counter. The React
    provider holds one `UserStats` record; `addXP` and `completeQuest`
    replace it by a copy with some fields changed. */
module Progression {

  /** Experience points spanned by one level. */
  const XPPerLevel := 1000

  datatype UserStats = UserStats(
    level: int,
    xp: int,
    xpToNext: int,
    completedQuests: int,
    totalLocationsVisited: int,
    achievements: seq<string>,
    rank: string)

  /** The record the provider starts with. Its level (7) is not the level
      the store derives from 2450 XP (3); its xpToNext (550) is the value
      the store derives at that level. */
  function InitialStats(): UserStats {
    UserStats(7, 2450, 550, 23, 15,
              ["Stadtentdecker", "Social Butterfly", "Nachtfalter", "First Quest"],
              "Abenteurer")
  }

  /** The 1000-XP band that xp falls in, counting from 1. Dividing by a
      positive constant rounds down in Dafny exactly as the source's floor
      does, negative xp included. */
  function CalculateLevel(xp: int): (level: int)
    ensures (level - 1) * XPPerLevel <= xp < level * XPPerLevel
    ensures xp >= 0 ==> level >= 1
  {
    xp / XPPerLevel + 1
  }

  /** XP missing to the first XP value of level `level + 1`. */
  function CalculateXPToNext(xp: int, level: int): int {
    level * XPPerLevel - xp
  }

  /** The level/XP invariant the store's own updates establish. */
  predicate Consistent(s: UserStats) {
    && s.level == CalculateLevel(s.xp)
    && s.xpToNext == CalculateXPToNext(s.xp, s.level)
  }

  /** The record `addXP(amount)` stores: xp grows by `amount`, level and
      xpToNext are recomputed from it, every other field is kept. */
  function AddXPTo(prev: UserStats, amount: int): (next: UserStats)
    ensures next.xp == prev.xp + amount
    ensures Consistent(next)
    ensures next.(level := prev.level, xp := prev.xp, xpToNext := prev.xpToNext) == prev
  {
    var newXP := prev.xp + amount;
    var newLevel := CalculateLevel(newXP);
    prev.(xp := newXP, level := newLevel, xpToNext := CalculateXPToNext(newXP, newLevel))
  }

  /** The `leveledUp` flag of `addXP`: the recomputed level exceeds the stored one. */
  predicate LevelsUp(prev: UserStats, amount: int) {
    CalculateLevel(prev.xp + amount) > prev.level
  }

  /** The record `completeQuest()` stores. */
  function CompleteQuestOn(prev: UserStats): (next: UserStats)
    ensures next.completedQuests == prev.completedQuests + 1
    ensures next.(completedQuests := prev.completedQuests) == prev
  {
    prev.(completedQuests := prev.completedQuests + 1)
  }

  /** The provider: the single `userStats` state and its two updaters. The
      level-up console message is returned as a flag instead. */
  class UserProvider {
    var userStats: UserStats

    constructor ()
      ensures userStats == InitialStats()
    {
      userStats := InitialStats();
    }

    method AddXP(amount: int) returns (leveledUp: bool)
      modifies this
      ensures userStats == AddXPTo(old(userStats), amount)
      ensures leveledUp == LevelsUp(old(userStats), amount)
      ensures Consistent(userStats)
    {
      var prev := userStats;
      var newXP := prev.xp + amount;
      var newLevel := CalculateLevel(newXP);
      leveledUp := newLevel > prev.level;
      userStats := prev.(xp := newXP, level := newLevel, xpToNext := CalculateXPToNext(newXP, newLevel));
    }

    method CompleteQuest()
      modifies this
      ensures userStats == CompleteQuestOn(old(userStats))
    {
      userStats := userStats.(completedQuests := userStats.completedQuests + 1);
    }
  }

  /** For every xp the stored xpToNext lies in 1..1000: it is what is left
      of the current 1000-XP band. */
  lemma XPToNextBounds(xp: int)
    ensures CalculateXPToNext(xp, CalculateLevel(xp)) == XPPerLevel - xp % XPPerLevel
    ensures 1 <= CalculateXPToNext(xp, CalculateLevel(xp)) <= XPPerLevel
  {
  }

  /** The initial record breaks the invariant through its level only: 2450
      XP is level 3, while the stored xpToNext of 550 is what the store
      derives at that level. */
  lemma InitialInconsistent()
    ensures !Consistent(InitialStats())
    ensures CalculateLevel(InitialStats().xp) == 3 != InitialStats().level
    ensures CalculateXPToNext(InitialStats().xp, CalculateLevel(InitialStats().xp)) == InitialStats().xpToNext
  {
  }

  /** From the initial record, any award below 3550 XP lowers the level
      (from 7 to 3 or more) and raises no level-up flag. */
  lemma InitialLevelDrops(amount: int)
    requires 0 <= amount < 3550
    ensures AddXPTo(InitialStats(), amount).level < InitialStats().level
    ensures !LevelsUp(InitialStats(), amount)
  {
  }

  /** From a consistent record the level-up flag is set exactly when the
      new XP enters a higher 1000-XP band. */
  lemma LevelUpIffNewBand(prev: UserStats, amount: int)
    requires Consistent(prev)
    ensures LevelsUp(prev, amount) <==> (prev.xp + amount) / XPPerLevel > prev.xp / XPPerLevel
  {
  }

  /** A non-negative award never lowers xp; from a consistent record it
      never lowers the level either. */
  lemma AddXPMonotone(prev: UserStats, amount: int)
    requires amount >= 0
    ensures AddXPTo(prev, amount).xp >= prev.xp
    ensures Consistent(prev) ==> AddXPTo(prev, amount).level >= prev.level
  {
  }

  /** `completeQuest` keeps the invariant. */
  lemma CompleteQuestPreservesConsistency(s: UserStats)
    requires Consistent(s)
    ensures Consistent(CompleteQuestOn(s))
  {
  }

  /** A sequence of calls on the store, as a quest-completion event issues them. */
  datatype Action = Award(amount: int) | QuestDone

  function Step(s: UserStats, a: Action): UserStats {
    match a
    case Award(amount) => AddXPTo(s, amount)
    case QuestDone => CompleteQuestOn(s)
  }

  /** The record after performing `actions` in order from `s`. */
  function Run(s: UserStats, actions: seq<Action>): UserStats
    decreases |actions|
  {
    if actions == [] then s else Run(Step(s, actions[0]), actions[1..])
  }

  function QuestsIn(actions: seq<Action>): nat {
    if actions == [] then 0
    else (if actions[0].QuestDone? then 1 else 0) + QuestsIn(actions[1..])
  }

  function XPIn(actions: seq<Action>): int {
    if actions == [] then 0
    else (if actions[0].Award? then actions[0].amount else 0) + XPIn(actions[1..])
  }

  predicate AwardsXP(actions: seq<Action>) {
    exists i :: 0 <= i < |actions| && actions[i].Award?
  }

  predicate NonNegativeAwards(actions: seq<Action>) {
    forall i :: 0 <= i < |actions| && actions[i].Award? ==> actions[i].amount >= 0
  }

  /** n calls of `completeQuest` add exactly n to the counter, whatever
      `addXP` calls are interleaved; the xp is the sum of the awards; the
      remaining fields never change. */
  lemma {:induction false} RunTotals(s: UserStats, actions: seq<Action>)
    ensures Run(s, actions).completedQuests == s.completedQuests + QuestsIn(actions)
    ensures Run(s, actions).xp == s.xp + XPIn(actions)
    ensures Run(s, actions).totalLocationsVisited == s.totalLocationsVisited
    ensures Run(s, actions).achievements == s.achievements
    ensures Run(s, actions).rank == s.rank
    decreases |actions|
  {
    if actions != [] {
      RunTotals(Step(s, actions[0]), actions[1..]);
    }
  }

  /** The invariant holds after a run if it held before or if the run
      contains at least one `addXP`. */
  lemma {:induction false} RunConsistent(s: UserStats, actions: seq<Action>)
    requires Consistent(s) || AwardsXP(actions)
    ensures Consistent(Run(s, actions))
    decreases |actions|
  {
    if actions != [] {
      var t := Step(s, actions[0]);
      assert Consistent(t) || AwardsXP(actions[1..]) by {
        if !actions[0].Award? && !Consistent(s) {
          var i :| 0 <= i < |actions| && actions[i].Award?;
          assert actions[1..][i - 1] == actions[i];
        }
      }
      RunConsistent(t, actions[1..]);
    }
  }

  /** From a consistent record, runs with non-negative awards never lower
      xp, level or the quest counter. */
  lemma {:induction false} RunMonotone(s: UserStats, actions: seq<Action>)
    requires Consistent(s)
    requires NonNegativeAwards(actions)
    ensures Run(s, actions).xp >= s.xp
    ensures Run(s, actions).level >= s.level
    ensures Run(s, actions).completedQuests >= s.completedQuests
    decreases |actions|
  {
    if actions != [] {
      var t := Step(s, actions[0]);
      if actions[0].Award? {
        AddXPMonotone(s, actions[0].amount);
      }
      assert NonNegativeAwards(actions[1..]) by {
        forall i | 0 <= i < |actions[1..]| && actions[1..][i].Award?
          ensures actions[1..][i].amount >= 0
        {
          assert actions[1..][i] == actions[i + 1];
        }
      }
      RunMonotone(t, actions[1..]);
    }
  }
}
