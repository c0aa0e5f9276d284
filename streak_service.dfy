/**
 * The daily streak, after `backend/app/services/streak_service.py`: active again on the same
 * day leaves the streak alone, active on the next day extends it, anything else restarts it.
 * Dates are day numbers; the store "streak.json" is a map from user id to entry.
 */
module StreakService {
  import opened Wrappers

  /** One user's entry; `lastActive` is `None` when the entry has no usable "last_active". */
  datatype StreakRecord = StreakRecord(userId: string, streak: int, lastActive: Option<int>, updatedAt: Option<string>)

  /** The streak rules, for the entry held before an update (if any) and today's day number. */
  function StreakAfter(entry: Option<StreakRecord>, today: int): (s: int)
    ensures entry.None? ==> s == 1
    ensures entry.Some? && entry.value.lastActive == Some(today) ==> s == entry.value.streak
    ensures entry.Some? && entry.value.lastActive == Some(today - 1) ==> s == entry.value.streak + 1
    ensures entry.Some? && entry.value.lastActive !in {Some(today), Some(today - 1)} ==> s == 1
  {
    match entry
    case None => 1
    case Some(e) =>
      match e.lastActive
      case None => 1
      case Some(day) =>
        if day == today then e.streak
        else if day == today - 1 then e.streak + 1
        else 1
  }

  /** A second update on the same day finds `lastActive == today` and keeps the streak. */
  lemma SameDayIdempotent(entry: Option<StreakRecord>, today: int, e2: StreakRecord)
    requires e2.streak == StreakAfter(entry, today) && e2.lastActive == Some(today)
    ensures StreakAfter(Some(e2), today) == StreakAfter(entry, today)
  {
  }

  class StreakState {
    /** The content of "streak.json". */
    var data: map<string, StreakRecord>

    constructor (data: map<string, StreakRecord>)
      ensures this.data == data
    {
      this.data := data;
    }

    /** `get_streak`: the stored entry, or streak 0 with no activity for an unknown user. */
    function GetStreak(userId: string): (r: StreakRecord)
      reads this
      ensures userId in data ==> r == data[userId]
      ensures userId !in data ==> r == StreakRecord(userId, 0, None, None)
    {
      if userId in data then data[userId] else StreakRecord(userId, 0, None, None)
    }

    /**
     * `update_streak`: a new user starts at 1; otherwise the stored entry gets the streak the
     * rules give, today as its last activity and `now` as its update time. Only this user's
     * entry changes.
     */
    method UpdateStreak(userId: string, today: int, now: string) returns (r: StreakRecord)
      modifies this
      ensures var entry := if userId in old(data) then Some(old(data)[userId]) else None;
        r.streak == StreakAfter(entry, today)
      ensures r.lastActive == Some(today) && r.updatedAt == Some(now)
      ensures userId !in old(data) ==> r.userId == userId
      ensures userId in old(data) ==> r.userId == old(data)[userId].userId
      ensures data == old(data)[userId := r]
    {
      if userId !in data {
        r := StreakRecord(userId, 1, Some(today), Some(now));
      } else {
        r := data[userId];
        if r.lastActive.None? {
          r := r.(streak := 1);
        } else if r.lastActive.value == today {
        } else if r.lastActive.value == today - 1 {
          r := r.(streak := r.streak + 1);
        } else {
          r := r.(streak := 1);
        }
        r := r.(lastActive := Some(today), updatedAt := Some(now));
      }
      data := data[userId := r];
    }

    /** `reset_streak`: this user's entry becomes streak 0 with no activity; others are kept. */
    method ResetStreak(userId: string, now: string) returns (r: StreakRecord)
      modifies this
      ensures r == StreakRecord(userId, 0, None, Some(now))
      ensures data == old(data)[userId := r]
    {
      r := StreakRecord(userId, 0, None, Some(now));
      data := data[userId := r];
    }
  }
}
