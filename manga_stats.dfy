/**
 * Per-manga reading statistics: the history of one manga grouped by day over a period,
 * the rows and total of the read-duration chart, their sort, and the period controls.
 * Instants are UTC milliseconds and a day is the integer `ms / DAY_MS`.
 */
module MangaStats {
  import opened Wrappers
  import opened Text
  import opened Sorting

  const DAY_MS := 86_400_000

  /** The day an instant falls on. */
  function Day(ms: int): int
  {
    ms / DAY_MS
  }

  /** Midnight at the start of the day of `ms`. */
  function DayStart(ms: int): int
  {
    Day(ms) * DAY_MS
  }

  /** A history row: which chapter, when it was last read, and for how long. */
  datatype History = History(chapterId: int, lastRead: int, timeRead: int)

  /** A chapter; its number is only ever compared. */
  datatype Chapter = Chapter(id: int, number: real, name: string, scanlator: Option<string>)

  /** A row of the chart. */
  datatype StatsData = StatsData(chapterNumber: real, name: Option<string>, subName: Option<string>,
                                 readDuration: int)

  datatype StatsSort = ChapterNumber | ReadDurationCount

  /** The entries of one day of the period, keyed by the day's first instant. */
  datatype DayGroup = DayGroup(dayStart: int, entries: seq<History>)

  // ---------------------------------------------------------------------------
  // Period arithmetic

  /** `getDaysRange`: whole days between the ends (truncated) plus one. */
  function DaysRange(startDate: int, endDate: int): int
  {
    TruncDiv(endDate - startDate, DAY_MS) + 1
  }

  /** The end of a custom period: the last millisecond of the day of `endMillis`. */
  function EndOfDay(ms: int): int
  {
    DayStart(ms) + DAY_MS - 1
  }

  lemma DayStartBounds(ms: int)
    ensures DayStart(ms) <= ms < DayStart(ms) + DAY_MS
    ensures Day(DayStart(ms)) == Day(ms)
  {
  }

  /** A custom period spans the days from the first to the last, both included. */
  lemma CustomPeriodDays(startMillis: int, endMillis: int)
    requires Day(startMillis) <= Day(endMillis)
    ensures DaysRange(DayStart(startMillis), EndOfDay(endMillis)) == Day(endMillis) - Day(startMillis) + 1
  {
    var k := Day(endMillis) - Day(startMillis);
    var diff := EndOfDay(endMillis) - DayStart(startMillis);
    assert diff == k * DAY_MS + (DAY_MS - 1);
    assert diff / DAY_MS == k;
  }

  /** Shifting both ends by the same amount keeps the length of the period. */
  lemma ShiftKeepsDaysRange(startDate: int, endDate: int, shift: int)
    ensures DaysRange(startDate + shift, endDate + shift) == DaysRange(startDate, endDate)
  {
    assert (endDate + shift) - (startDate + shift) == endDate - startDate;
  }

  // ---------------------------------------------------------------------------
  // Grouping by day

  function InPeriod(startDate: int, endDate: int): History -> bool
  {
    (h: History) => startDate <= h.lastRead <= endDate
  }

  function OnDay(key: int): History -> bool
  {
    (h: History) => Day(h.lastRead) == Day(key)
  }

  /** `getMangaHistoryGroupedByDay`: `daysRange` consecutive days from `startDate`, each with
    * the period's entries read that day, in history order. */
  function GroupByDay(history: seq<History>, startDate: int, endDate: int, daysRange: int): (r: seq<DayGroup>)
    ensures |r| == (if daysRange < 0 then 0 else daysRange)
    ensures forall i :: 0 <= i < |r| ==> r[i].dayStart == startDate + i * DAY_MS
    ensures forall i, k :: 0 <= i < |r| && 0 <= k < |r[i].entries| ==>
              var h := r[i].entries[k];
              h in history && startDate <= h.lastRead <= endDate && Day(h.lastRead) == Day(r[i].dayStart)
    ensures forall i, h ::
              (0 <= i < |r| && h in history && startDate <= h.lastRead <= endDate
               && Day(h.lastRead) == Day(r[i].dayStart)) ==> h in r[i].entries
  {
    var period := Filter(history, InPeriod(startDate, endDate));
    var n := if daysRange < 0 then 0 else daysRange;
    seq(n, i requires 0 <= i < n => DayGroup(startDate + i * DAY_MS, Filter(period, OnDay(startDate + i * DAY_MS))))
  }

  /** For a custom period, every entry read inside it is in the group of its own day. */
  lemma GroupsCoverPeriod(history: seq<History>, startMillis: int, endMillis: int, h: History)
    requires Day(startMillis) <= Day(endMillis)
    requires h in history && DayStart(startMillis) <= h.lastRead <= EndOfDay(endMillis)
    ensures var startDate := DayStart(startMillis);
            var endDate := EndOfDay(endMillis);
            var groups := GroupByDay(history, startDate, endDate, DaysRange(startDate, endDate));
            var i := Day(h.lastRead) - Day(startMillis);
            0 <= i < |groups| && h in groups[i].entries
  {
    var startDate := DayStart(startMillis);
    var endDate := EndOfDay(endMillis);
    CustomPeriodDays(startMillis, endMillis);
    var i := Day(h.lastRead) - Day(startMillis);
    assert Day(startDate + i * DAY_MS) == Day(startMillis) + i;
  }

  /** The group stored under `key`, if any (`historyByPeriod[day]`). */
  function Lookup(groups: seq<DayGroup>, key: int): (r: Option<seq<History>>)
    ensures r.None? <==> forall i :: 0 <= i < |groups| ==> groups[i].dayStart != key
    ensures r.Some? ==> exists i :: 0 <= i < |groups| && groups[i].dayStart == key && groups[i].entries == r.value
    decreases |groups|
  {
    if |groups| == 0 then None
    else if groups[0].dayStart == key then Some(groups[0].entries)
    else
      var rest := Lookup(groups[1..], key);
      assert forall i :: 1 <= i < |groups| ==> groups[i] == groups[1..][i - 1];
      rest
  }

  /** `historyByPeriod.values.flatten()` */
  function Flatten(groups: seq<DayGroup>): (r: seq<History>)
    decreases |groups|
  {
    if |groups| == 0 then [] else groups[0].entries + Flatten(groups[1..])
  }

  /** The entries a chart shows: all days of the period, or the one day asked for
    * (none when that day is not a key). */
  function Selected(groups: seq<DayGroup>, day: Option<int>): (r: seq<History>)
    ensures day.None? ==> r == Flatten(groups)
    ensures day.Some? && Lookup(groups, day.value).None? ==> r == []
    ensures day.Some? && Lookup(groups, day.value).Some? ==> r == Lookup(groups, day.value).value
  {
    if day.None? then Flatten(groups)
    else match Lookup(groups, day.value)
      case None => []
      case Some(hs) => hs
  }

  // ---------------------------------------------------------------------------
  // Rows and totals

  /** `chapters.firstOrNull { it.id == id }` */
  function FindChapter(chapters: seq<Chapter>, id: int): (r: Option<Chapter>)
    ensures r.None? <==> forall i :: 0 <= i < |chapters| ==> chapters[i].id != id
    ensures r.Some? ==> r.value in chapters && r.value.id == id
    decreases |chapters|
  {
    if |chapters| == 0 then None
    else if chapters[0].id == id then Some(chapters[0])
    else FindChapter(chapters[1..], id)
  }

  /** The row of one history entry: number 0 and no labels for an unknown chapter. */
  function Row(h: History, chapters: seq<Chapter>): (r: StatsData)
    ensures r.readDuration == h.timeRead
    ensures FindChapter(chapters, h.chapterId).None? ==> r == StatsData(0.0, None, None, h.timeRead)
    ensures FindChapter(chapters, h.chapterId).Some? ==>
              var c := FindChapter(chapters, h.chapterId).value;
              r == StatsData(c.number, Some(c.name), c.scanlator, h.timeRead)
  {
    match FindChapter(chapters, h.chapterId)
    case None => StatsData(0.0, None, None, h.timeRead)
    case Some(c) => StatsData(c.number, Some(c.name), c.scanlator, h.timeRead)
  }

  function Rows(hs: seq<History>, chapters: seq<Chapter>): (r: seq<StatsData>)
    ensures |r| == |hs|
    ensures forall i :: 0 <= i < |hs| ==> r[i] == Row(hs[i], chapters)
  {
    seq(|hs|, i requires 0 <= i < |hs| => Row(hs[i], chapters))
  }

  /** `sumOf { it.time_read }` */
  function SumRead(hs: seq<History>): int
    decreases |hs|
  {
    if |hs| == 0 then 0 else hs[0].timeRead + SumRead(hs[1..])
  }

  function SumDurations(rows: seq<StatsData>): int
    decreases |rows|
  {
    if |rows| == 0 then 0 else rows[0].readDuration + SumDurations(rows[1..])
  }

  lemma {:induction false} SumReadAppend(a: seq<History>, b: seq<History>)
    ensures SumRead(a + b) == SumRead(a) + SumRead(b)
    decreases |a|
  {
    if |a| == 0 {
      assert a + b == b;
    } else {
      assert (a + b)[1..] == a[1..] + b;
      SumReadAppend(a[1..], b);
    }
  }

  /** The rows carry the same total as the entries they come from. */
  lemma {:induction false} RowsTotal(hs: seq<History>, chapters: seq<Chapter>)
    ensures SumDurations(Rows(hs, chapters)) == SumRead(hs)
    decreases |hs|
  {
    if |hs| > 0 {
      RowsTotal(hs[1..], chapters);
      assert Rows(hs, chapters)[1..] == Rows(hs[1..], chapters);
    }
  }

  // ---------------------------------------------------------------------------
  // The two sorts

  /** `compareByDescending { chapterNumber }.thenByDescending { readDuration }` */
  function ByChapterDesc(a: StatsData, b: StatsData): bool
  {
    a.chapterNumber > b.chapterNumber || (a.chapterNumber == b.chapterNumber && a.readDuration >= b.readDuration)
  }

  /** `compareByDescending { readDuration }.thenByDescending { chapterNumber }` */
  function ByDurationDesc(a: StatsData, b: StatsData): bool
  {
    a.readDuration > b.readDuration || (a.readDuration == b.readDuration && a.chapterNumber >= b.chapterNumber)
  }

  function SortOrder(sort: StatsSort): (StatsData, StatsData) -> bool
  {
    match sort
    case ChapterNumber => ByChapterDesc
    case ReadDurationCount => ByDurationDesc
  }

  function SortStats(rows: seq<StatsData>, sort: StatsSort): seq<StatsData>
  {
    SortBy(rows, SortOrder(sort))
  }

  /** Both sorts reorder the rows: descending by the first key, ties descending by the
    * second. */
  lemma SortStatsSpec(rows: seq<StatsData>, sort: StatsSort)
    ensures var r := SortStats(rows, sort);
            && multiset(r) == multiset(rows)
            && (sort == ChapterNumber ==> forall i, j :: 0 <= i < j < |r| ==>
                  r[i].chapterNumber > r[j].chapterNumber
                  || (r[i].chapterNumber == r[j].chapterNumber && r[i].readDuration >= r[j].readDuration))
            && (sort == ReadDurationCount ==> forall i, j :: 0 <= i < j < |r| ==>
                  r[i].readDuration > r[j].readDuration
                  || (r[i].readDuration == r[j].readDuration && r[i].chapterNumber >= r[j].chapterNumber))
  {
    assert TotalPreorder(ByChapterDesc);
    assert TotalPreorder(ByDurationDesc);
    SortBySorted(rows, SortOrder(sort));
  }

  // ---------------------------------------------------------------------------
  // The presenter

  class StatsMangaPresenter {
    var startDate: int
    var endDate: int
    var daysRange: int
    const history: seq<History>
    var historyByPeriod: seq<DayGroup>
    var totalReadDuration: Option<int>
    var currentStats: Option<seq<StatsData>>
    var selectedStatsSort: StatsSort
    const chapters: seq<Chapter>

    /** `startDate`/`endDate` are the week the screen opens on. */
    constructor (startDate: int, endDate: int, history: seq<History>, chapters: seq<Chapter>)
      ensures this.startDate == startDate && this.endDate == endDate
      ensures daysRange == DaysRange(startDate, endDate)
      ensures this.history == history && this.chapters == chapters
      ensures historyByPeriod == GroupByDay(history, startDate, endDate, DaysRange(startDate, endDate))
      ensures totalReadDuration == None && currentStats == None && selectedStatsSort == ChapterNumber
    {
      this.startDate := startDate;
      this.endDate := endDate;
      daysRange := DaysRange(startDate, endDate);
      this.history := history;
      this.chapters := chapters;
      historyByPeriod := GroupByDay(history, startDate, endDate, DaysRange(startDate, endDate));
      totalReadDuration := None;
      currentStats := None;
      selectedStatsSort := ChapterNumber;
    }

    /** `setupReadDuration`: one row per selected entry, sorted; the total is the entries'
      * read time, or 0 for a day that is not in the period. */
    method SetupReadDuration(day: Option<int>)
      modifies this`currentStats, this`totalReadDuration
      ensures currentStats == Some(SortStats(Rows(Selected(historyByPeriod, day), chapters), selectedStatsSort))
      ensures totalReadDuration == Some(SumRead(Selected(historyByPeriod, day)))
    {
      var historyManga: Option<seq<History>>;
      if day.None? {
        historyManga := Some(Flatten(historyByPeriod));
      } else {
        historyManga := Lookup(historyByPeriod, day.value);
      }
      var hs := if historyManga.None? then [] else historyManga.value;
      assert hs == Selected(historyByPeriod, day);
      var stats: seq<StatsData> := [];
      var i := 0;
      while i < |hs|
        invariant 0 <= i <= |hs|
        invariant |stats| == i
        invariant forall k :: 0 <= k < i ==> stats[k] == Row(hs[k], chapters)
      {
        stats := stats + [Row(hs[i], chapters)];
        i := i + 1;
      }
      assert stats == Rows(hs, chapters);
      currentStats := Some(stats);
      SortCurrentStats();
      totalReadDuration := Some(if historyManga.None? then 0 else SumRead(historyManga.value));
    }

    /** `sortCurrentStats`: sorts the rows in place by the selected order. */
    method SortCurrentStats()
      modifies this`currentStats
      ensures old(currentStats).None? ==> currentStats == None
      ensures old(currentStats).Some? ==> currentStats == Some(SortStats(old(currentStats).value, selectedStatsSort))
    {
      if currentStats.Some? {
        currentStats := Some(SortStats(currentStats.value, selectedStatsSort));
      }
    }

    /** `changeReadDurationPeriod`: moves both ends by `toAdd` periods. `daysRange` is not
      * recomputed, and need not be: the length is unchanged. */
    method ChangeReadDurationPeriod(toAdd: int)
      modifies this`startDate, this`endDate
      ensures startDate == old(startDate) + toAdd * daysRange * DAY_MS
      ensures endDate == old(endDate) + toAdd * daysRange * DAY_MS
      ensures DaysRange(startDate, endDate) == DaysRange(old(startDate), old(endDate))
    {
      var shift := toAdd * daysRange * DAY_MS;
      startDate := startDate + shift;
      endDate := endDate + shift;
      ShiftKeepsDaysRange(old(startDate), old(endDate), shift);
    }

    /** `updateReadDurationPeriod`: from midnight of the first day to the last millisecond
      * of the last day. */
    method UpdateReadDurationPeriod(startMillis: int, endMillis: int)
      modifies this`startDate, this`endDate, this`daysRange
      ensures startDate == DayStart(startMillis) && endDate == EndOfDay(endMillis)
      ensures daysRange == DaysRange(startDate, endDate)
      ensures Day(startMillis) <= Day(endMillis) ==> daysRange == Day(endMillis) - Day(startMillis) + 1
    {
      startDate := DayStart(startMillis);
      endDate := EndOfDay(endMillis);
      daysRange := DaysRange(startDate, endDate);
      if Day(startMillis) <= Day(endMillis) {
        CustomPeriodDays(startMillis, endMillis);
      }
    }

    /** `updateMangaHistory` */
    method UpdateMangaHistory()
      modifies this`historyByPeriod
      ensures historyByPeriod == GroupByDay(history, startDate, endDate, daysRange)
    {
      historyByPeriod := GroupByDay(history, startDate, endDate, daysRange);
    }

    /** `getCalendarShortDay`; `displayName` is the locale's short weekday name, if any. */
    method GetCalendarShortDay(displayName: Option<string>) returns (s: string)
      ensures |historyByPeriod| > 14 ==> s == ""
      ensures |historyByPeriod| <= 14 ==> s == if displayName.None? then "unknown" else displayName.value
    {
      if |historyByPeriod| > 14 {
        s := "";
      } else if displayName.None? {
        s := "unknown";
      } else {
        s := displayName.value;
      }
    }
  }
}
