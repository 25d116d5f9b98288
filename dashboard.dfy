/**
 * The dashboard read model's post-processing: the clamps applied to its
 * query parameters, the Monday-first weekday table, the empty best streak
 * and the defaults of the summary. The SQL that produces the rows is not
 * modelled; its rows are inputs.
 */
module Dashboard {
  import opened Wrappers
  import opened JsText

  // ---------------------------------------------------------------------------
  // Parameter clamps: `Math.max(lo, Math.min(x, hi))`

  /** `Math.max(lo, Math.min(x, hi))` on integers. */
  function Clamp(x: int, lo: int, hi: int): (r: int)
    requires lo <= hi
    ensures lo <= r <= hi
    ensures lo <= x <= hi ==> r == x
    ensures x < lo ==> r == lo
    ensures x > hi ==> r == hi
  {
    var m := if x <= hi then x else hi;
    if lo >= m then lo else m
  }

  /** The day window of the unlocks-by-day query, 1 to 365 days. */
  function SafeDays(days: int): (r: int)
    ensures 1 <= r <= 365
    ensures 1 <= days <= 365 ==> r == days
    ensures days < 1 ==> r == 1
    ensures days > 365 ==> r == 365
  {
    Clamp(days, 1, 365)
  }

  /** The row limit of the top-games query, 1 to 50 rows. */
  function SafeTopGamesLimit(limit: int): (r: int)
    ensures 1 <= r <= 50
    ensures 1 <= limit <= 50 ==> r == limit
    ensures limit < 1 ==> r == 1
    ensures limit > 50 ==> r == 50
  {
    Clamp(limit, 1, 50)
  }

  /** The row limit of the recent-achievements, unlock-stats and progress queries, 1 to 100 rows. */
  function SafeListLimit(limit: int): (r: int)
    ensures 1 <= r <= 100
    ensures 1 <= limit <= 100 ==> r == limit
    ensures limit < 1 ==> r == 1
    ensures limit > 100 ==> r == 100
  {
    Clamp(limit, 1, 100)
  }

  /** The month window of the cumulative-by-month query, 1 to 240 months. */
  function SafeMonths(months: int): (r: int)
    ensures 1 <= r <= 240
    ensures 1 <= months <= 240 ==> r == months
    ensures months < 1 ==> r == 1
    ensures months > 240 ==> r == 240
  {
    Clamp(months, 1, 240)
  }

  // ---------------------------------------------------------------------------
  // Weekday reordering

  /** A grouped row of the weekday query: the day's abbreviation, its DOW (0 = Sunday) and its count. */
  datatype WeekdayRow = WeekdayRow(weekday: string, dow: int, achievements: int)

  /** One entry of the result. */
  datatype WeekdayCount = WeekdayCount(weekday: string, achievements: int)

  /** DOW values in the order the dashboard shows them, Monday first. */
  const MondayFirst: seq<int> := [1, 2, 3, 4, 5, 6, 0]

  /** The abbreviation used for a DOW that has no row. */
  function DefaultAbbreviation(dow: int): string {
    if dow == 0 then "Sun"
    else if dow == 1 then "Mon"
    else if dow == 2 then "Tue"
    else if dow == 3 then "Wed"
    else if dow == 4 then "Thu"
    else if dow == 5 then "Fri"
    else "Sat"
  }

  /** A row with its abbreviation trimmed. */
  function Normalized(r: WeekdayRow): WeekdayRow {
    WeekdayRow(Trim(r.weekday), r.dow, r.achievements)
  }

  /** `new Map(rows.map(r => [r.dow, r]))`: a later row for the same DOW replaces an earlier one. */
  function RowsByDow(rows: seq<WeekdayRow>): map<int, WeekdayRow>
  {
    if rows == [] then map[]
    else RowsByDow(rows[..|rows| - 1])[rows[|rows| - 1].dow := rows[|rows| - 1]]
  }

  /** The last row with DOW `d`, scanning from the end: the reference for the map. */
  function LastWithDow(rows: seq<WeekdayRow>, d: int): (r: Option<nat>)
    ensures r.Some? ==>
      r.value < |rows| && rows[r.value].dow == d && forall j :: r.value < j < |rows| ==> rows[j].dow != d
    ensures r.None? ==> forall j :: 0 <= j < |rows| ==> rows[j].dow != d
  {
    if rows == [] then None
    else if rows[|rows| - 1].dow == d then Some(|rows| - 1)
    else LastWithDow(rows[..|rows| - 1], d)
  }

  /** The map holds, for each DOW, exactly the last row with that DOW. */
  lemma {:induction false} RowsByDowIsLast(rows: seq<WeekdayRow>, d: int)
    ensures d in RowsByDow(rows) <==> LastWithDow(rows, d).Some?
    ensures d in RowsByDow(rows) ==> RowsByDow(rows)[d] == rows[LastWithDow(rows, d).value]
    decreases |rows|
  {
    if rows != [] {
      RowsByDowIsLast(rows[..|rows| - 1], d);
    }
  }

  /** The entry for one DOW: from its row when there is one, else the default abbreviation and 0. */
  function EntryFor(m: map<int, WeekdayRow>, dow: int): WeekdayCount {
    if dow in m then WeekdayCount(m[dow].weekday, m[dow].achievements)
    else WeekdayCount(DefaultAbbreviation(dow), 0)
  }

  /**
   * `getAchievementsByWeekdayOslo` after the query: seven entries, Monday to
   * Sunday; a day with rows carries the trimmed abbreviation and count of its
   * last row, a day without any row its default abbreviation and 0.
   */
  function AchievementsByWeekday(rows: seq<WeekdayRow>): (r: seq<WeekdayCount>)
    ensures |r| == 7
    ensures forall k :: 0 <= k < 7 ==>
      var d := MondayFirst[k];
      var last := LastWithDow(rows, d);
      && (last.Some? ==> r[k] == WeekdayCount(Trim(rows[last.value].weekday), rows[last.value].achievements))
      && (last.None? ==> r[k] == WeekdayCount(DefaultAbbreviation(d), 0))
  {
    var normalized := seq(|rows|, i requires 0 <= i < |rows| => Normalized(rows[i]));
    var m := RowsByDow(normalized);
    forall k | 0 <= k < 7
      ensures var d := MondayFirst[k];
        var last := LastWithDow(rows, d);
        && (last.Some? ==> EntryFor(m, d) == WeekdayCount(Trim(rows[last.value].weekday), rows[last.value].achievements))
        && (last.None? ==> EntryFor(m, d) == WeekdayCount(DefaultAbbreviation(d), 0))
    {
      RowsByDowIsLast(normalized, MondayFirst[k]);
      LastWithDowNormalized(rows, normalized, MondayFirst[k]);
    }
    seq(7, k requires 0 <= k < 7 => EntryFor(m, MondayFirst[k]))
  }

  /** Trimming the abbreviations does not move the last row of any DOW. */
  lemma {:induction false} LastWithDowNormalized(rows: seq<WeekdayRow>, normalized: seq<WeekdayRow>, d: int)
    requires |normalized| == |rows|
    requires forall i :: 0 <= i < |rows| ==> normalized[i] == Normalized(rows[i])
    ensures LastWithDow(normalized, d) == LastWithDow(rows, d)
    decreases |rows|
  {
    if rows != [] {
      LastWithDowNormalized(rows[..|rows| - 1], normalized[..|rows| - 1], d);
    }
  }

  /** With no rows at all the week reads Mon … Sun, every count 0. */
  lemma EmptyWeek()
    ensures AchievementsByWeekday([]) == [
      WeekdayCount("Mon", 0), WeekdayCount("Tue", 0), WeekdayCount("Wed", 0), WeekdayCount("Thu", 0),
      WeekdayCount("Fri", 0), WeekdayCount("Sat", 0), WeekdayCount("Sun", 0)]
  {
    var r := AchievementsByWeekday([]);
    assert forall k :: 0 <= k < 7 ==> LastWithDow([], MondayFirst[k]).None?;
  }

  /** The order of the query's rows does not matter when each DOW has at most one row. */
  lemma {:induction false} LastWithDowUnique(rows: seq<WeekdayRow>, d: int, i: nat)
    requires i < |rows| && rows[i].dow == d
    requires forall j :: 0 <= j < |rows| && j != i ==> rows[j].dow != d
    ensures LastWithDow(rows, d) == Some(i)
    decreases |rows|
  {
    if rows[|rows| - 1].dow != d {
      LastWithDowUnique(rows[..|rows| - 1], d, i);
    }
  }

  // ---------------------------------------------------------------------------
  // Best streak

  /** The streak query's single row, dates already as `YYYY-MM-DD`. */
  datatype StreakRow = StreakRow(startDate: string, endDate: string, len: int)

  datatype BestStreak = BestStreak(days: int, startDate: Option<string>, endDate: Option<string>, dates: seq<string>)

  /**
   * `getBestStreakOslo` after its queries: no streak row means no streak at
   * all; otherwise the row's length and bounds and the expanded dates.
   */
  function BestStreakOf(row: Option<StreakRow>, expanded: seq<string>): (r: BestStreak)
    ensures row.None? ==> r == BestStreak(0, None, None, [])
    ensures row.Some? ==>
      && r.days == row.value.len && r.startDate == Some(row.value.startDate)
      && r.endDate == Some(row.value.endDate) && r.dates == expanded
    ensures r.startDate.None? <==> row.None?
  {
    match row
    case None => BestStreak(0, None, None, [])
    case Some(s) => BestStreak(s.len, Some(s.startDate), Some(s.endDate), expanded)
  }

  // ---------------------------------------------------------------------------
  // Summary

  /** The aggregate row and the 7-day row of the summary queries; either may be missing. */
  datatype AggregateRow = AggregateRow(uniqueGames: int, totalUnlocks: int, lastUnlockedAt: Option<string>)
  datatype WindowRow = WindowRow(unlocksLast7Days: int)

  datatype DashboardSummary = DashboardSummary(
    steamUserId: string,
    uniqueGamesWithUnlocks: int,
    totalUnlocks: int,
    unlocksLast7Days: int,
    lastUnlockedAt: Option<string>)

  /**
   * `getDashboardSummary` after its queries: a missing row reads as zero
   * counts and no last unlock; a present row's counts are passed through,
   * and its last unlock when it is truthy (present and not empty).
   */
  function DashboardSummaryOf(steamUserId: string, rowA: Option<AggregateRow>, rowB: Option<WindowRow>): (r: DashboardSummary)
    ensures r.steamUserId == steamUserId
    ensures rowA.None? ==> r.uniqueGamesWithUnlocks == 0 && r.totalUnlocks == 0 && r.lastUnlockedAt == None
    ensures rowA.Some? ==>
      r.uniqueGamesWithUnlocks == rowA.value.uniqueGames && r.totalUnlocks == rowA.value.totalUnlocks
    ensures r.lastUnlockedAt.Some? <==> rowA.Some? && rowA.value.lastUnlockedAt.Some? && rowA.value.lastUnlockedAt.value != ""
    ensures r.lastUnlockedAt.Some? ==> r.lastUnlockedAt == rowA.value.lastUnlockedAt
    ensures r.unlocksLast7Days == (if rowB.Some? then rowB.value.unlocksLast7Days else 0)
  {
    var games := if rowA.Some? then rowA.value.uniqueGames else 0;
    var total := if rowA.Some? then rowA.value.totalUnlocks else 0;
    var last := if rowA.Some? && rowA.value.lastUnlockedAt.Some? && rowA.value.lastUnlockedAt.value != ""
      then rowA.value.lastUnlockedAt else None;
    DashboardSummary(steamUserId, games, total, if rowB.Some? then rowB.value.unlocksLast7Days else 0, last)
  }
}
