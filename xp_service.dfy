/**
 * XP and levels, after `backend/app/services/xp_service.py`: ten fixed level thresholds,
 * one level per further 500 XP beyond the last one, and a per-user record in the store.
 */
module XpService {
  import opened Wrappers

  /** `LEVEL_THRESHOLDS`: the XP at which levels 1 to 10 begin. */
  const Thresholds: seq<int> := [0, 50, 150, 300, 500, 750, 1050, 1400, 1800, 2250]
  /** XP per level beyond the last threshold. */
  const XpPerHighLevel := 500

  /** `XP_REWARDS`. */
  const XpRewards: map<string, int> := map[
    "mcq_correct" := 10,
    "mcq_perfect" := 25,
    "streak_milestone" := 20,
    "model_viewed" := 5,
    "daily_complete" := 30]

  /* ---------- the level specification ---------- */

  /** How many of the first `n` thresholds `xp` has reached. */
  function Reached(xp: int, n: nat): (r: nat)
    requires n <= |Thresholds|
    ensures r <= n
  {
    if n == 0 then 0 else Reached(xp, n - 1) + (if Thresholds[n - 1] <= xp then 1 else 0)
  }

  /**
   * The level for an XP total: one per threshold reached (at least 1), and beyond the last
   * threshold 10 plus one per whole 500 XP above it.
   */
  function LevelFor(xp: int): int {
    if xp >= Thresholds[9] then 10 + (xp - Thresholds[9]) / XpPerHighLevel
    else if Reached(xp, 10) == 0 then 1
    else Reached(xp, 10)
  }

  lemma ThresholdsIncrease()
    ensures forall i, j :: 0 <= i < j < |Thresholds| ==> Thresholds[i] < Thresholds[j]
  {
  }

  /** Below the last threshold, `xp` has reached exactly the thresholds before its level's bracket end. */
  lemma {:induction false} ReachedBracket(xp: int, n: nat)
    requires 0 < n <= |Thresholds| && 0 <= xp
    ensures 1 <= Reached(xp, n)
    ensures Thresholds[Reached(xp, n) - 1] <= xp
    ensures Reached(xp, n) < n ==> xp < Thresholds[Reached(xp, n)]
  {
    ThresholdsIncrease();
    if n > 1 {
      ReachedBracket(xp, n - 1);
    }
  }

  /** Every XP total, negative ones included, has level at least 1. */
  lemma LevelAtLeastOne(xp: int)
    ensures LevelFor(xp) >= 1
  {
  }

  /** Below 50 XP the level is 1. */
  lemma LevelOneBelowFifty(xp: int)
    requires xp < Thresholds[1]
    ensures LevelFor(xp) == 1
  {
    assert Reached(xp, 10) <= 1 by {
      ReachedBelow(xp, 10);
    }
  }

  /** Only the first threshold can be reached below the second. */
  lemma {:induction false} ReachedBelow(xp: int, n: nat)
    requires n <= |Thresholds| && xp < Thresholds[1]
    ensures Reached(xp, n) <= 1
  {
    if n > 1 {
      ReachedBelow(xp, n - 1);
      ThresholdsIncrease();
    }
  }

  /** For 0 <= xp < 2250 the level is one plus the index of the last threshold at or below `xp`. */
  lemma LevelIsBracket(xp: int)
    requires 0 <= xp < Thresholds[9]
    ensures 1 <= LevelFor(xp) <= 9
    ensures Thresholds[LevelFor(xp) - 1] <= xp < Thresholds[LevelFor(xp)]
  {
    ReachedBracket(xp, 10);
  }

  /** At and beyond 2250 XP, one level per 500 XP on top of level 10. */
  lemma LevelBeyondLastThreshold(xp: int)
    requires xp >= Thresholds[9]
    ensures LevelFor(xp) == 10 + (xp - 2250) / 500 && LevelFor(xp) >= 10
  {
  }

  lemma {:induction false} ReachedMonotone(x: int, y: int, n: nat)
    requires x <= y && n <= |Thresholds|
    ensures Reached(x, n) <= Reached(y, n)
  {
    if n > 0 {
      ReachedMonotone(x, y, n - 1);
    }
  }

  /** More XP never means a lower level. */
  lemma LevelMonotone(x: int, y: int)
    requires x <= y
    ensures LevelFor(x) <= LevelFor(y)
  {
    ReachedMonotone(x, y, 10);
    if x < Thresholds[9] <= y {
      assert Reached(x, 10) <= 10;
    }
  }

  /**
   * `_calculate_level`: walk the thresholds while `xp` reaches them, then switch to the
   * formula from the last threshold on.
   */
  method CalculateLevel(xp: int) returns (level: int)
    ensures level == LevelFor(xp)
  {
    level := 1;
    var i := 0;
    while i < |Thresholds| && xp >= Thresholds[i]
      invariant 0 <= i <= |Thresholds|
      invariant forall j :: 0 <= j < i ==> Thresholds[j] <= xp
      invariant level == if i == 0 then 1 else i
    {
      level := i + 1;
      i := i + 1;
    }
    // the loop stopped at the first threshold above `xp`, or ran out of thresholds
    ThresholdsIncrease();
    assert i < |Thresholds| ==> forall j :: i <= j < |Thresholds| ==> xp < Thresholds[j];
    ReachedIsPrefix(xp, i, 10);
    if xp >= Thresholds[|Thresholds| - 1] {
      level := |Thresholds|;
      var remaining := xp - Thresholds[|Thresholds| - 1];
      level := level + remaining / XpPerHighLevel;
    }
  }

  /** When exactly the first `i` thresholds are at or below `xp`, `xp` has reached `i` of them. */
  lemma {:induction false} ReachedIsPrefix(xp: int, i: nat, n: nat)
    requires i <= |Thresholds| && n <= |Thresholds|
    requires forall j :: 0 <= j < i ==> Thresholds[j] <= xp
    requires forall j :: i <= j < |Thresholds| ==> xp < Thresholds[j]
    ensures Reached(xp, n) == if n <= i then n else i
  {
    if n > 0 {
      ReachedIsPrefix(xp, i, n - 1);
    }
  }

  /**
   * `_xp_to_next_level`: the distance to the next threshold, or beyond the table to the
   * next multiple of 500 above 2250. A negative level indexes the table from its end, as
   * Python does.
   */
  function XpToNextLevel(level: int, currentXp: int): int
    requires level >= -|Thresholds|
  {
    if level < |Thresholds| then
      (if level >= 0 then Thresholds[level] else Thresholds[|Thresholds| + level]) - currentXp
    else
      Thresholds[|Thresholds| - 1] + (level - |Thresholds| + 1) * XpPerHighLevel - currentXp
  }

  /** At the level it computes, there is always XP left to reach the next level. */
  lemma XpToNextPositive(xp: int)
    ensures XpToNextLevel(LevelFor(xp), xp) > 0
  {
    if xp < 0 {
      LevelOneBelowFifty(xp);
    } else if xp < Thresholds[9] {
      LevelIsBracket(xp);
    } else {
      var q := (xp - 2250) / 500;
      assert xp - 2250 < (q + 1) * 500;
    }
  }

  /**
   * The distance is exactly what the next level needs: one XP less stays at the level, and
   * the distance itself reaches the next one.
   */
  lemma XpToNextReachesNextLevel(xp: int)
    ensures var d := XpToNextLevel(LevelFor(xp), xp);
      LevelFor(xp + d - 1) == LevelFor(xp) && LevelFor(xp + d) == LevelFor(xp) + 1
  {
    var level := LevelFor(xp);
    if xp < 0 {
      LevelOneBelowFifty(xp);
      LevelOneBelowFifty(49);
      LevelIsBracket(50);
    } else if xp < Thresholds[9] {
      LevelIsBracket(xp);
      ThresholdsIncrease();
      var next := Thresholds[level];
      assert XpToNextLevel(level, xp) == next - xp;
      LevelIsBracket(next - 1);
      if level < 9 {
        LevelIsBracket(next);
      }
    } else {
      var q := (xp - 2250) / 500;
      assert xp - 2250 < (q + 1) * 500;
      assert XpToNextLevel(level, xp) == 2250 + (q + 1) * 500 - xp;
      assert (2250 + (q + 1) * 500 - 1 - 2250) / 500 == q;
      assert (2250 + (q + 1) * 500 - 2250) / 500 == q + 1;
    }
  }

  /* ---------- the service ---------- */

  /** One user's entry of "xp.json"; `xp` is `None` when the entry has no "xp" key. */
  datatype XpRecord = XpRecord(userId: string, xp: Option<int>, level: int, updatedAt: Option<string>)

  datatype XpData = XpData(userId: string, xp: int, level: int, xpToNextLevel: int, updatedAt: Option<string>)

  datatype XpGain = XpGain(userId: string, xp: int, level: int, xpAdded: int, reason: string, levelUp: bool, xpToNextLevel: int)

  /** `get_xp_reward`: the table's reward, 0 for an unknown action. */
  function GetXpReward(action: string): (r: int)
    ensures action in XpRewards ==> r == XpRewards[action]
    ensures action !in XpRewards ==> r == 0
    ensures action == "mcq_correct" ==> r == 10
  {
    if action in XpRewards then XpRewards[action] else 0
  }

  class XpServiceState {
    /** The content of "xp.json". */
    var data: map<string, XpRecord>

    constructor (data: map<string, XpRecord>)
      ensures this.data == data
    {
      this.data := data;
    }

    /**
     * `get_xp_data`: defaults for an unknown user; otherwise the stored XP with the level and
     * distance computed from it. An entry without "xp" raises `KeyError`.
     */
    function GetXpData(userId: string): (r: Result<XpData>)
      reads this
      ensures userId !in data ==> r == Ok(XpData(userId, 0, 1, 50, None))
      ensures userId in data && data[userId].xp.None? ==> r == Err("'xp'")
      ensures r.Ok? ==> r.value.level >= 1 && r.value.xpToNextLevel > 0 && r.value.userId == userId
      ensures userId in data && data[userId].xp.Some? ==>
        r.Ok? && r.value.xp == data[userId].xp.value && r.value.level == LevelFor(r.value.xp) &&
        r.value.updatedAt == data[userId].updatedAt
      ensures r.Ok? ==>
        LevelFor(r.value.xp + r.value.xpToNextLevel - 1) == r.value.level &&
        LevelFor(r.value.xp + r.value.xpToNextLevel) == r.value.level + 1
    {
      if userId !in data then
        XpToNextReachesNextLevel(0);
        Ok(XpData(userId, 0, 1, Thresholds[1], None))
      else
        var entry := data[userId];
        match entry.xp
        case None => Err("'xp'")
        case Some(xp) =>
          LevelAtLeastOne(xp);
          XpToNextPositive(xp);
          XpToNextReachesNextLevel(xp);
          Ok(XpData(userId, xp, LevelFor(xp), XpToNextLevel(LevelFor(xp), xp), entry.updatedAt))
    }

    /**
     * `add_xp`: the user's XP (0 when absent) plus `amount` is stored with its level and the
     * time of the call; a level-up is reported when the new level is above the old one,
     * the old level of a new user being 1.
     */
    method AddXp(userId: string, amount: int, reason: string, now: string) returns (r: XpGain)
      modifies this
      ensures var current := if userId in old(data) then old(data)[userId].xp.GetOr(0) else 0;
        var oldLevel := if userId in old(data) then LevelFor(current) else 1;
        && r.xp == current + amount
        && r.level == LevelFor(current + amount)
        && r.xpAdded == amount && r.reason == reason && r.userId == userId
        && (r.levelUp <==> LevelFor(current + amount) > oldLevel)
        && r.xpToNextLevel == XpToNextLevel(r.level, r.xp)
        && data == old(data)[userId := XpRecord(userId, Some(current + amount), LevelFor(current + amount), Some(now))]
    {
      var currentXp: int;
      var oldLevel: int;
      if userId !in data {
        currentXp := 0;
        oldLevel := 1;
      } else {
        currentXp := data[userId].xp.GetOr(0);
        oldLevel := CalculateLevel(currentXp);
      }
      var newXp := currentXp + amount;
      var newLevel := CalculateLevel(newXp);
      LevelAtLeastOne(newXp);
      data := data[userId := XpRecord(userId, Some(newXp), newLevel, Some(now))];
      r := XpGain(userId, newXp, newLevel, amount, reason, newLevel > oldLevel, XpToNextLevel(newLevel, newXp));
    }
  }

  /** Adding a non-negative amount never reports a lower level than the one held before. */
  lemma GainNeverLowersLevel(current: int, amount: int)
    requires amount >= 0
    ensures LevelFor(current + amount) >= LevelFor(current)
  {
    LevelMonotone(current, current + amount);
  }
}
