/**
 * Day offsets between a date and "now", and the status lines the dashboard
 * shows for due dates, nudge dates and connection age.
 *
 * Every date, "now" included, is an instant in epoch milliseconds passed in
 * by the caller; reading the clock and parsing ISO-8601 strings stay outside.
 */
module DateUtils {
  import opened Wrappers
  import opened Decimal

  /** Milliseconds in a day: 1000 * 60 * 60 * 24. */
  const MsPerDay: int := 1000 * 60 * 60 * 24

  /** Whole days until `dueMs`, rounded up: the ceiling of (due - now) / MsPerDay. */
  function GetDaysRemaining(dueMs: int, nowMs: int): (days: int)
    ensures (days - 1) * MsPerDay < dueMs - nowMs <= days * MsPerDay
  {
    -((nowMs - dueMs) / MsPerDay)
  }

  /** Whole days since `startMs`, rounded down: the floor of (now - start) / MsPerDay. */
  function GetDaysSince(startMs: int, nowMs: int): (days: int)
    ensures days * MsPerDay <= nowMs - startMs < (days + 1) * MsPerDay
  {
    (nowMs - startMs) / MsPerDay
  }

  /** Due text: "N days overdue", "Due today", "Due tomorrow" or "Due in N days". */
  function FormatDaysRemaining(dueMs: int, nowMs: int): (s: string)
    ensures '-' !in s
    ensures s == "Due today" <==> GetDaysRemaining(dueMs, nowMs) == 0
    ensures s == "Due tomorrow" <==> GetDaysRemaining(dueMs, nowMs) == 1
  {
    var days := GetDaysRemaining(dueMs, nowMs);
    if days < 0 then
      var s := IntToString(Abs(days)) + " days overdue";
      assert IsDigit(s[0]);
      s
    else if days == 0 then "Due today"
    else if days == 1 then "Due tomorrow"
    else
      var s := "Due in " + IntToString(days) + " days";
      assert s[4] == 'i';
      s
  }

  /** Connection-age text: "Connected today", "1 day connected" or "N days connected", sign kept. */
  function FormatDaysConnected(connectedMs: int, nowMs: int): (s: string)
    ensures s == "Connected today" <==> GetDaysSince(connectedMs, nowMs) == 0
    ensures s == "1 day connected" <==> GetDaysSince(connectedMs, nowMs) == 1
    ensures ('-' in s) <==> GetDaysSince(connectedMs, nowMs) < 0
  {
    var days := GetDaysSince(connectedMs, nowMs);
    if days == 0 then "Connected today"
    else if days == 1 then "1 day connected"
    else
      var n := IntToString(days);
      var s := n + " days connected";
      assert s[0] == n[0];
      s
  }

  /** Nudge text: "OVERDUE", "NOTIFYING TODAY", "NOTIFYING TOMORROW" or "NOTIFYING IN N DAYS". */
  function FormatNextNudge(nudgeMs: int, nowMs: int): (s: string)
    ensures s == "OVERDUE" <==> GetDaysRemaining(nudgeMs, nowMs) < 0
    ensures s == "NOTIFYING TODAY" <==> GetDaysRemaining(nudgeMs, nowMs) == 0
    ensures s == "NOTIFYING TOMORROW" <==> GetDaysRemaining(nudgeMs, nowMs) == 1
  {
    var days := GetDaysRemaining(nudgeMs, nowMs);
    if days < 0 then "OVERDUE"
    else if days == 0 then "NOTIFYING TODAY"
    else if days == 1 then "NOTIFYING TOMORROW"
    else
      var s := "NOTIFYING IN " + IntToString(days) + " DAYS";
      assert s[10] == 'I';
      s
  }

  /**
   * Due within `thresholdDays` days from today, both ends included: less than
   * a day past and at most `thresholdDays` whole days ahead.
   */
  predicate IsDueSoon(dueMs: int, nowMs: int, thresholdDays: int := 7)
    ensures IsDueSoon(dueMs, nowMs, thresholdDays)
        <==> -MsPerDay < dueMs - nowMs <= thresholdDays * MsPerDay
  {
    var days := GetDaysRemaining(dueMs, nowMs);
    days >= 0 && days <= thresholdDays
  }

  /** Overdue only once at least a whole day has passed since the due instant. */
  predicate IsOverdue(dueMs: int, nowMs: int)
    ensures IsOverdue(dueMs, nowMs) <==> dueMs - nowMs <= -MsPerDay
  {
    GetDaysRemaining(dueMs, nowMs) < 0
  }

  /** `Math.abs` on an integral day count. */
  function Abs(x: int): (r: nat)
    ensures r == x || r == -x
  {
    if x < 0 then -x else x
  }

  // ---------------------------------------------------------------------
  // Reading status lines back. The dashboard never does this; each reader
  // is the inverse of one formatter and shows that the formatter keeps the
  // whole day count (and, for due lines, never needs a minus sign to do so).

  predicate StartsWith(s: string, prefix: string) {
    prefix <= s
  }

  predicate EndsWith(s: string, suffix: string) {
    |suffix| <= |s| && s[|s| - |suffix|..] == suffix
  }

  function ParseDaysRemaining(s: string): Option<int> {
    if s == "Due today" then Some(0)
    else if s == "Due tomorrow" then Some(1)
    else if EndsWith(s, " days overdue") then
      match ParseNat(s[..|s| - 13])
      case Some(n) => if n > 0 then Some(-(n as int)) else None
      case None => None
    else if StartsWith(s, "Due in ") && EndsWith(s, " days") && |s| >= 12 then
      match ParseNat(s[7..|s| - 5])
      case Some(n) => if n > 1 then Some(n as int) else None
      case None => None
    else None
  }

  function ParseDaysConnected(s: string): Option<int> {
    if s == "Connected today" then Some(0)
    else if s == "1 day connected" then Some(1)
    else if EndsWith(s, " days connected") then
      match ParseInt(s[..|s| - 15])
      case Some(d) => if d != 0 && d != 1 then Some(d) else None
      case None => None
    else None
  }

  /** Reads a nudge line back; "OVERDUE" carries no count and reads as None. */
  function ParseNextNudge(s: string): Option<int> {
    if s == "NOTIFYING TODAY" then Some(0)
    else if s == "NOTIFYING TOMORROW" then Some(1)
    else if StartsWith(s, "NOTIFYING IN ") && EndsWith(s, " DAYS") && |s| >= 18 then
      match ParseNat(s[13..|s| - 5])
      case Some(n) => if n > 1 then Some(n as int) else None
      case None => None
    else None
  }

  /** The due line determines the day count, overdue counts included. */
  lemma {:induction false} DaysRemainingRoundTrip(dueMs: int, nowMs: int)
    ensures ParseDaysRemaining(FormatDaysRemaining(dueMs, nowMs)) == Some(GetDaysRemaining(dueMs, nowMs))
  {
    var days := GetDaysRemaining(dueMs, nowMs);
    var s := FormatDaysRemaining(dueMs, nowMs);
    if days < 0 {
      var n := NatToString(-days);
      assert s == n + " days overdue";
      assert IsDigit(s[0]);
      assert s[|s| - 13..] == " days overdue";
      assert s[..|s| - 13] == n;
    } else if days > 1 {
      var n := NatToString(days);
      assert s == "Due in " + n + " days";
      assert s[4] == 'i' && s[|s| - 1] == 's';
      assert s[..7] == "Due in ";
      assert s[|s| - 5..] == " days";
      assert s[7..|s| - 5] == n;
    }
  }

  /** The connection line determines the day count, negative counts included. */
  lemma DaysConnectedRoundTrip(connectedMs: int, nowMs: int)
    ensures ParseDaysConnected(FormatDaysConnected(connectedMs, nowMs)) == Some(GetDaysSince(connectedMs, nowMs))
  {
  }

  /** A nudge line determines a non-negative day count; negative counts all read "OVERDUE". */
  lemma NextNudgeRoundTrip(nudgeMs: int, nowMs: int)
    ensures GetDaysRemaining(nudgeMs, nowMs) >= 0 ==>
      ParseNextNudge(FormatNextNudge(nudgeMs, nowMs)) == Some(GetDaysRemaining(nudgeMs, nowMs))
    ensures GetDaysRemaining(nudgeMs, nowMs) < 0 ==> ParseNextNudge(FormatNextNudge(nudgeMs, nowMs)) == None
  {
  }

  // ---------------------------------------------------------------------
  // Properties of the day offsets

  /** A due instant less than a whole day ahead counts as one day remaining. */
  lemma PartialDayAheadIsOneDay(dueMs: int, nowMs: int)
    requires nowMs < dueMs <= nowMs + MsPerDay
    ensures GetDaysRemaining(dueMs, nowMs) == 1
  {
  }

  /** An exact number of days ahead (or behind) gives exactly that count. */
  lemma ExactDaysRemaining(nowMs: int, k: int)
    ensures GetDaysRemaining(nowMs + k * MsPerDay, nowMs) == k
  {
  }

  /** A start less than a whole day in the past counts as zero days since. */
  lemma PartialDayBehindIsZeroDays(startMs: int, nowMs: int)
    requires startMs <= nowMs < startMs + MsPerDay
    ensures GetDaysSince(startMs, nowMs) == 0
  {
  }

  lemma ExactDaysSince(nowMs: int, k: int)
    ensures GetDaysSince(nowMs - k * MsPerDay, nowMs) == k
  {
  }

  /** ceil(x) == -floor(-x): the two offsets of one date are opposite. */
  lemma RemainingIsMinusSince(dateMs: int, nowMs: int)
    ensures GetDaysRemaining(dateMs, nowMs) == -GetDaysSince(dateMs, nowMs)
  {
  }

  // ---------------------------------------------------------------------
  // Properties of the predicates

  /** No threshold makes a date both due soon and overdue. */
  lemma DueSoonExcludesOverdue(dueMs: int, nowMs: int, thresholdDays: int)
    ensures !(IsDueSoon(dueMs, nowMs, thresholdDays) && IsOverdue(dueMs, nowMs))
  {
  }

  /** The nudge line reads "OVERDUE" exactly when the date is overdue. */
  lemma OverdueIffNudgeOverdue(dateMs: int, nowMs: int)
    ensures IsOverdue(dateMs, nowMs) <==> FormatNextNudge(dateMs, nowMs) == "OVERDUE"
  {
  }

  /** Every date is overdue, due soon under the default threshold, or more than seven days away. */
  lemma DateStatusesCover(dueMs: int, nowMs: int)
    ensures IsOverdue(dueMs, nowMs) || IsDueSoon(dueMs, nowMs) || GetDaysRemaining(dueMs, nowMs) > 7
  {
  }

  // ---------------------------------------------------------------------
  // Worked instances

  /** Four days ahead, today, one day late. */
  lemma DueLineExamples(nowMs: int)
    ensures FormatDaysRemaining(nowMs + 4 * MsPerDay, nowMs) == "Due in 4 days"
    ensures FormatDaysRemaining(nowMs, nowMs) == "Due today"
    ensures FormatDaysRemaining(nowMs - MsPerDay, nowMs) == "1 days overdue"
  {
    assert GetDaysRemaining(nowMs + 4 * MsPerDay, nowMs) == 4;
    assert GetDaysRemaining(nowMs - MsPerDay, nowMs) == -1;
    assert NatToString(4) == "4" && NatToString(1) == "1";
  }

  /** Connected a day ago, and "connected" a day in the future. */
  lemma ConnectedLineExamples(nowMs: int)
    ensures FormatDaysConnected(nowMs - MsPerDay, nowMs) == "1 day connected"
    ensures FormatDaysConnected(nowMs + MsPerDay, nowMs) == "-1 days connected"
  {
    assert GetDaysSince(nowMs + MsPerDay, nowMs) == -1;
    assert NatToString(1) == "1";
  }

  /** Nine days ahead, and the edge of the default seven-day window. */
  lemma NudgeAndWindowExamples(nowMs: int)
    ensures FormatNextNudge(nowMs + 9 * MsPerDay, nowMs) == "NOTIFYING IN 9 DAYS"
    ensures IsDueSoon(nowMs + 7 * MsPerDay, nowMs)
    ensures !IsDueSoon(nowMs + 8 * MsPerDay, nowMs)
  {
  }
}
