/** Time entries between the wire and the sensors: fetching a range,
    normalising the raw entries, the two filters that cut a window out of
    the synced list, the millisecond total, and the worked-time summary. */
module Entries {
  import opened Wrappers
  import opened Seqs
  import opened Calendar
  import opened IsoFormat
  import opened Transport

  /** One entry as the time-entries endpoint sends it. `start` is the parsed
      timestamp, `None` when the key is missing, null or empty; `duration` is
      `None` when the key is missing; `stop` is passed through unread. */
  datatype RawEntry = RawEntry(id: Option<int>, start: Option<DateTime>, stop: Option<string>,
                               duration: Option<int>, description: Option<string>,
                               projectId: Option<int>, taskId: Option<int>)

  /** One entry in the client's own shape: `duration` is renamed `seconds`.
      `seconds` is `None` for an entry that lacks it or holds null. */
  datatype TimeEntry = TimeEntry(id: Option<int>, start: Option<DateTime>, stop: Option<string>,
                                 seconds: Option<int>, description: Option<string>,
                                 projectId: Option<int>, taskId: Option<int>)

  // ---------------------------------------------------------------------
  // Fetching

  /** `_fetch_raw_time_entries` once the request is made: the entries of a
      successful response; an empty body, and every failure, give `[]`. */
  function FetchedEntries(o: HttpOutcome<seq<RawEntry>>): (r: seq<RawEntry>)
    ensures r != [] ==> o.Response? && !IsErrorStatus(o.status) && o.body == Json(r)
    ensures o.Response? && !IsErrorStatus(o.status) && o.body.Json? ==> r == o.body.value
  {
    match MakeRequest(o)
    case Failure(_) => []
    case Success(None) => []
    case Success(Some(entries)) => entries
  }

  // ---------------------------------------------------------------------
  // Normalisation

  /** Not still running: the duration, 0 when absent, is not negative. */
  predicate Completed(e: RawEntry) {
    e.duration.GetOr(0) >= 0
  }

  /** The client's shape of one raw entry. */
  function ToTimeEntry(e: RawEntry): TimeEntry {
    TimeEntry(e.id, e.start, e.stop, Some(e.duration.GetOr(0)), e.description, e.projectId, e.taskId)
  }

  /** The raw entries that are not running, in order. */
  function CompletedEntries(raw: seq<RawEntry>): (r: seq<RawEntry>) {
    if raw == [] then []
    else
      var rest := CompletedEntries(raw[..|raw| - 1]);
      if Completed(raw[|raw| - 1]) then rest + [raw[|raw| - 1]] else rest
  }

  /** Every raw entry in the client's shape, position by position. */
  function ToTimeEntries(raw: seq<RawEntry>): (r: seq<TimeEntry>)
    ensures |r| == |raw|
    ensures forall i :: 0 <= i < |r| ==> r[i] == ToTimeEntry(raw[i])
  {
    if raw == [] then [] else ToTimeEntries(raw[..|raw| - 1]) + [ToTimeEntry(raw[|raw| - 1])]
  }

  /** What `get_time_entries` returns for the raw entries of a response. */
  function Normalized(raw: seq<RawEntry>): seq<TimeEntry> {
    ToTimeEntries(CompletedEntries(raw))
  }

  /** `get_time_entries`' loop: skip running entries, rename the rest. */
  method NormalizeEntries(raw: seq<RawEntry>) returns (normalized: seq<TimeEntry>)
    ensures normalized == Normalized(raw)
  {
    normalized := [];
    for i := 0 to |raw|
      invariant normalized == Normalized(raw[..i])
    {
      assert raw[..i + 1][..i] == raw[..i];
      var entry := raw[i];
      var duration := entry.duration.GetOr(0);
      if duration < 0 {
        continue;
      }
      normalized := normalized + [ToTimeEntry(entry)];
    }
    assert raw[..|raw|] == raw;
  }

  /** The kept raw entries are exactly the completed ones, in their original
      order and with their multiplicities. */
  lemma {:induction false} CompletedEntriesExact(raw: seq<RawEntry>)
    ensures Subseq(CompletedEntries(raw), raw)
    ensures forall e :: multiset(CompletedEntries(raw))[e] == if Completed(e) then multiset(raw)[e] else 0
  {
    if raw != [] {
      var init, x := raw[..|raw| - 1], raw[|raw| - 1];
      assert raw == init + [x];
      CompletedEntriesExact(init);
      if Completed(x) {
        SubseqExtendBoth(CompletedEntries(init), init, x);
      } else {
        SubseqExtendRight(CompletedEntries(init), init, x);
      }
    }
  }

  /** Every normalised entry carries a duration, and it is not negative. */
  lemma NormalizedNonNegative(raw: seq<RawEntry>)
    ensures forall i :: 0 <= i < |Normalized(raw)| ==>
      Normalized(raw)[i].seconds.Some? && Normalized(raw)[i].seconds.value >= 0
  {
    var kept := CompletedEntries(raw);
    forall i | 0 <= i < |Normalized(raw)|
      ensures Normalized(raw)[i].seconds.Some? && Normalized(raw)[i].seconds.value >= 0
    {
      CompletedEntriesExact(raw);
      assert kept[i] in multiset(kept);
    }
  }

  /** A failed request normalises to no entries. */
  lemma FailedFetchIsEmpty(o: HttpOutcome<seq<RawEntry>>)
    requires MakeRequest(o).Failure?
    ensures Normalized(FetchedEntries(o)) == []
  {
  }

  // ---------------------------------------------------------------------
  // The calendar-date filter

  /** The entry has a start, and its date lies in `[lo, hi]`, both ends included. */
  predicate StartsOn(e: TimeEntry, lo: Date, hi: Date) {
    e.start.Some? && DateLe(lo, e.start.value.date) && DateLe(e.start.value.date, hi)
  }

  /** The entries that start on a day of `[lo, hi]`, in order. */
  function OnDates(entries: seq<TimeEntry>, lo: Date, hi: Date): (r: seq<TimeEntry>) {
    if entries == [] then []
    else
      var rest := OnDates(entries[..|entries| - 1], lo, hi);
      if StartsOn(entries[|entries| - 1], lo, hi) then rest + [entries[|entries| - 1]] else rest
  }

  /** `_filter_entries_by_date`. */
  method FilterEntriesByDate(entries: seq<TimeEntry>, lo: Date, hi: Date) returns (filtered: seq<TimeEntry>)
    ensures filtered == OnDates(entries, lo, hi)
  {
    filtered := [];
    for i := 0 to |entries|
      invariant filtered == OnDates(entries[..i], lo, hi)
    {
      assert entries[..i + 1][..i] == entries[..i];
      var entry := entries[i];
      if entry.start.Some? {
        var entryDate := entry.start.value.date;
        if DateLe(lo, entryDate) && DateLe(entryDate, hi) {
          filtered := filtered + [entry];
        }
      }
    }
    assert entries[..|entries|] == entries;
  }

  /** The date filter keeps exactly the entries starting in the range, in order. */
  lemma {:induction false} OnDatesExact(entries: seq<TimeEntry>, lo: Date, hi: Date)
    ensures Subseq(OnDates(entries, lo, hi), entries)
    ensures forall e :: multiset(OnDates(entries, lo, hi))[e] == if StartsOn(e, lo, hi) then multiset(entries)[e] else 0
  {
    if entries != [] {
      var init, x := entries[..|entries| - 1], entries[|entries| - 1];
      assert entries == init + [x];
      OnDatesExact(init, lo, hi);
      if StartsOn(x, lo, hi) {
        SubseqExtendBoth(OnDates(init, lo, hi), init, x);
      } else {
        SubseqExtendRight(OnDates(init, lo, hi), init, x);
      }
    }
  }

  /** Moving the start of the range earlier only adds entries. */
  lemma {:induction false} OnDatesWiden(entries: seq<TimeEntry>, lo: Date, lo2: Date, hi: Date)
    requires DateLe(lo2, lo)
    ensures Subseq(OnDates(entries, lo, hi), OnDates(entries, lo2, hi))
  {
    if entries != [] {
      var init, x := entries[..|entries| - 1], entries[|entries| - 1];
      OnDatesWiden(init, lo, lo2, hi);
      if StartsOn(x, lo, hi) {
        assert StartsOn(x, lo2, hi);
        SubseqExtendBoth(OnDates(init, lo, hi), OnDates(init, lo2, hi), x);
      } else if StartsOn(x, lo2, hi) {
        SubseqExtendRight(OnDates(init, lo, hi), OnDates(init, lo2, hi), x);
      }
    }
  }

  // ---------------------------------------------------------------------
  // The rolling filter

  /** The entry has a start, and its wall-clock reading, offset dropped, is not
      before `cutoff`. */
  predicate StartedSince(e: TimeEntry, cutoff: DateTime) {
    e.start.Some? && NaiveLe(Naive(cutoff), Naive(e.start.value))
  }

  /** The entries that started at or after `cutoff`, in order. */
  function SinceCutoff(entries: seq<TimeEntry>, cutoff: DateTime): (r: seq<TimeEntry>) {
    if entries == [] then []
    else
      var rest := SinceCutoff(entries[..|entries| - 1], cutoff);
      if StartedSince(entries[|entries| - 1], cutoff) then rest + [entries[|entries| - 1]] else rest
  }

  /** `_filter_entries_by_timestamp`, with the clock reading `now` passed in. */
  method FilterEntriesByTimestamp(entries: seq<TimeEntry>, now: DateTime, hoursAgo: nat)
    returns (filtered: seq<TimeEntry>)
    requires ValidDateTime(now) && SubHoursDefined(now, hoursAgo)
    ensures filtered == SinceCutoff(entries, SubHours(now, hoursAgo))
  {
    var cutoffTime := SubHours(now, hoursAgo);
    filtered := [];
    for i := 0 to |entries|
      invariant filtered == SinceCutoff(entries[..i], cutoffTime)
    {
      assert entries[..i + 1][..i] == entries[..i];
      var entry := entries[i];
      if entry.start.Some? {
        var entryStart := entry.start.value;
        if entryStart.utcOffset.Some? {
          entryStart := Naive(entryStart);
        }
        if NaiveLe(Naive(cutoffTime), entryStart) {
          filtered := filtered + [entry];
        }
      }
    }
    assert entries[..|entries|] == entries;
  }

  /** The rolling filter keeps exactly the entries started since the cutoff, in order. */
  lemma {:induction false} SinceCutoffExact(entries: seq<TimeEntry>, cutoff: DateTime)
    ensures Subseq(SinceCutoff(entries, cutoff), entries)
    ensures forall e :: multiset(SinceCutoff(entries, cutoff))[e] == if StartedSince(e, cutoff) then multiset(entries)[e] else 0
  {
    if entries != [] {
      var init, x := entries[..|entries| - 1], entries[|entries| - 1];
      assert entries == init + [x];
      SinceCutoffExact(init, cutoff);
      if StartedSince(x, cutoff) {
        SubseqExtendBoth(SinceCutoff(init, cutoff), init, x);
      } else {
        SubseqExtendRight(SinceCutoff(init, cutoff), init, x);
      }
    }
  }

  /** An earlier cutoff only adds entries. */
  lemma {:induction false} SinceCutoffAntitone(entries: seq<TimeEntry>, cutoff: DateTime, earlier: DateTime)
    requires NaiveLe(earlier, cutoff)
    ensures Subseq(SinceCutoff(entries, cutoff), SinceCutoff(entries, earlier))
  {
    if entries != [] {
      var init, x := entries[..|entries| - 1], entries[|entries| - 1];
      SinceCutoffAntitone(init, cutoff, earlier);
      if StartedSince(x, cutoff) {
        NaiveLeTransitive(Naive(earlier), Naive(cutoff), Naive(x.start.value));
        SubseqExtendBoth(SinceCutoff(init, cutoff), SinceCutoff(init, earlier), x);
      } else if StartedSince(x, earlier) {
        SubseqExtendRight(SinceCutoff(init, cutoff), SinceCutoff(init, earlier), x);
      }
    }
  }

  /** With a valid start, the rolling test asks whether the entry's wall-clock
      start is at most `h` hours before `now`; the start's offset plays no part. */
  lemma StartedSinceIffWithinHours(e: TimeEntry, now: DateTime, h: nat)
    requires ValidDateTime(now) && SubHoursDefined(now, h)
    requires e.start.Some? ==> ValidDateTime(e.start.value)
    ensures StartedSince(e, SubHours(now, h)) <==>
            e.start.Some? && NaiveMicros(now) - h * MicrosPerHour <= NaiveMicros(e.start.value)
  {
    if e.start.Some? {
      NaiveLeIffMicrosLe(SubHours(now, h), e.start.value);
    }
  }

  // ---------------------------------------------------------------------
  // Totals

  /** The sum of the `seconds` that are present; absent or null ones add nothing. */
  function SumSeconds(entries: seq<TimeEntry>): int {
    if entries == [] then 0
    else SumSeconds(entries[..|entries| - 1]) + entries[|entries| - 1].seconds.GetOr(0)
  }

  /** `calculate_total_duration`: the total in milliseconds. */
  method CalculateTotalDuration(entries: seq<TimeEntry>) returns (totalDuration: int)
    ensures totalDuration == 1000 * SumSeconds(entries)
  {
    totalDuration := 0;
    for i := 0 to |entries|
      invariant totalDuration == 1000 * SumSeconds(entries[..i])
    {
      assert entries[..i + 1][..i] == entries[..i];
      var entry := entries[i];
      if entry.seconds.Some? {
        totalDuration := totalDuration + entry.seconds.value * 1000;
      }
    }
    assert entries[..|entries|] == entries;
  }

  /** No entry carries a negative duration. */
  predicate NonNegative(entries: seq<TimeEntry>) {
    forall i :: 0 <= i < |entries| ==> entries[i].seconds.GetOr(0) >= 0
  }

  /** Totals add up over concatenation. */
  lemma {:induction false} SumSecondsAppend(a: seq<TimeEntry>, b: seq<TimeEntry>)
    ensures SumSeconds(a + b) == SumSeconds(a) + SumSeconds(b)
    decreases |b|
  {
    if b == [] {
      assert a + b == a;
    } else {
      var init := b[..|b| - 1];
      assert (a + b)[..|a + b| - 1] == a + init;
      SumSecondsAppend(a, init);
    }
  }

  /** With no negative durations, dropping entries cannot raise the total. */
  lemma {:induction false} SumSecondsSubseq(a: seq<TimeEntry>, b: seq<TimeEntry>)
    requires Subseq(a, b) && NonNegative(b)
    ensures SumSeconds(a) <= SumSeconds(b)
    decreases |b|
  {
    if b != [] {
      var init := b[..|b| - 1];
      assert NonNegative(init) by {
        forall i | 0 <= i < |init| ensures init[i].seconds.GetOr(0) >= 0 {
          assert init[i] == b[i];
        }
      }
      if a == [] {
        SumSecondsSubseq(a, init);
      } else if a[|a| - 1] == b[|b| - 1] && Subseq(a[..|a| - 1], init) {
        SumSecondsSubseq(a[..|a| - 1], init);
      } else {
        SumSecondsSubseq(a, init);
      }
    }
  }

  /** With no negative durations the total is not negative. */
  lemma SumSecondsNonNegative(entries: seq<TimeEntry>)
    requires NonNegative(entries)
    ensures SumSeconds(entries) >= 0
  {
    SumSecondsSubseq([], entries);
  }

  /** An entry with only a `seconds` value. */
  function WithSeconds(seconds: Option<int>): TimeEntry {
    TimeEntry(None, None, None, seconds, None, None, None)
  }

  /** The totals the component's tests expect, null durations included. */
  lemma TotalExamples()
    ensures 1000 * SumSeconds([WithSeconds(Some(3600))]) == 3600000
    ensures 1000 * SumSeconds([WithSeconds(Some(1800)), WithSeconds(Some(1800))]) == 3600000
    ensures 1000 * SumSeconds([WithSeconds(Some(100)), WithSeconds(Some(200))]) == 300000
    ensures 1000 * SumSeconds([]) == 0
    ensures 1000 * SumSeconds([WithSeconds(None)]) == 0
    ensures 1000 * SumSeconds([WithSeconds(Some(60)), WithSeconds(None), WithSeconds(Some(120))]) == 180000
  {
    var a, b := WithSeconds(Some(1800)), WithSeconds(Some(100));
    assert [a, a][..1] == [a];
    assert [b, WithSeconds(Some(200))][..1] == [b];
    var c := [WithSeconds(Some(60)), WithSeconds(None), WithSeconds(Some(120))];
    assert c[..2][..1] == [WithSeconds(Some(60))];
  }

  // ---------------------------------------------------------------------
  // The worked-time summary

  const MillisPerHour := 3_600_000
  const MillisPerMinute := 60_000

  /** The dictionary `_get_worked_time_summary` returns. */
  datatype WorkedTimeSummary = WorkedTimeSummary(totalDuration: int, durationHours: int,
                                                 durationMinutes: int, entriesCount: nat,
                                                 entries: seq<TimeEntry>)

  /** `_get_worked_time_summary` for the entries its fetcher produced: the total,
      its whole hours and the whole minutes left over, and the entries with
      their count. Python's `//` and `%` agree with Dafny's for a positive divisor. */
  method WorkedTimeSummaryOf(entries: seq<TimeEntry>) returns (s: WorkedTimeSummary)
    ensures s.totalDuration == 1000 * SumSeconds(entries)
    ensures 0 <= s.durationMinutes < 60
    ensures s.durationHours * MillisPerHour + s.durationMinutes * MillisPerMinute <= s.totalDuration
    ensures s.totalDuration < s.durationHours * MillisPerHour + (s.durationMinutes + 1) * MillisPerMinute
    ensures s.entriesCount == |entries| && s.entries == entries
  {
    var totalDurationMs := CalculateTotalDuration(entries);
    s := WorkedTimeSummary(totalDurationMs, totalDurationMs / MillisPerHour,
                           (totalDurationMs % MillisPerHour) / MillisPerMinute, |entries|, entries);
  }

  /** Whole hours plus whole minutes below 60 that bracket a total to the minute
      are exactly the summary's `//` and `%` decomposition. */
  lemma DecompositionUnique(total: int, hours: int, minutes: int)
    requires 0 <= minutes < 60
    requires hours * MillisPerHour + minutes * MillisPerMinute <= total
    requires total < hours * MillisPerHour + (minutes + 1) * MillisPerMinute
    ensures hours == total / MillisPerHour
    ensures minutes == (total % MillisPerHour) / MillisPerMinute
  {
    var rem := total - hours * MillisPerHour;
    assert 0 <= rem < MillisPerHour;
    assert total == MillisPerHour * hours + rem;
    assert total / MillisPerHour == hours && total % MillisPerHour == rem;
    assert rem == MillisPerMinute * minutes + (rem - minutes * MillisPerMinute);
  }

  // ---------------------------------------------------------------------
  // Windows

  /** The six windows the sensors report: three rolling, three calendar. */
  datatype Window = Daily | Weekly | Monthly | CurrentDay | CurrentWeek | CurrentMonth {
    predicate IsRolling() {
      Daily? || Weekly? || Monthly?
    }

    /** How far a rolling window looks back. */
    function LookbackHours(): (h: nat)
      requires IsRolling()
      ensures h % 24 == 0
    {
      match this
      case Daily => 24
      case Weekly => 168
      case Monthly => 720
    }

    /** The first day of a calendar window ending today. */
    function StartDate(today: Date): (d: Date)
      requires !IsRolling() && ValidDate(today)
      ensures ValidDate(d) && DateLe(d, today)
      ensures CurrentDay? ==> d == today
      ensures CurrentMonth? ==> d.year == today.year && d.month == today.month && d.day == 1
    {
      match this
      case CurrentDay => today
      case CurrentWeek => StartOfWeekWithinSixDays(today); StartOfWeek(today)
      case CurrentMonth => StartOfMonth(today)
    }
  }

  /** The window can be computed at clock reading `now`: `now - timedelta(hours=…)`
      does not fall before year 1. */
  predicate WindowDefined(w: Window, now: DateTime) {
    ValidDateTime(now) && (w.IsRolling() ==> SubHoursDefined(now, w.LookbackHours()))
  }

  /** What the `get_*_time_entries` method of window `w` returns from the synced entries. */
  function WindowEntries(w: Window, all: seq<TimeEntry>, now: DateTime): seq<TimeEntry>
    requires WindowDefined(w, now)
  {
    if w.IsRolling() then SinceCutoff(all, SubHours(now, w.LookbackHours()))
    else OnDates(all, w.StartDate(now.date), now.date)
  }

  /** The last 24 hours lie within the last 168, which lie within the last 720. */
  lemma RollingWindowsNested(all: seq<TimeEntry>, now: DateTime)
    requires WindowDefined(Monthly, now)
    ensures WindowDefined(Daily, now) && WindowDefined(Weekly, now)
    ensures Subseq(WindowEntries(Daily, all, now), WindowEntries(Weekly, all, now))
    ensures Subseq(WindowEntries(Weekly, all, now), WindowEntries(Monthly, all, now))
  {
    SubHoursAntitone(now, 168, 720);
    SubHoursAntitone(now, 24, 168);
    SinceCutoffAntitone(all, SubHours(now, 24), SubHours(now, 168));
    SinceCutoffAntitone(all, SubHours(now, 168), SubHours(now, 720));
  }

  /** Today lies within this week and within this month. */
  lemma CalendarWindowsNested(all: seq<TimeEntry>, now: DateTime)
    requires ValidDateTime(now)
    ensures Subseq(WindowEntries(CurrentDay, all, now), WindowEntries(CurrentWeek, all, now))
    ensures Subseq(WindowEntries(CurrentDay, all, now), WindowEntries(CurrentMonth, all, now))
  {
    var today := now.date;
    OnDatesWiden(all, today, CurrentWeek.StartDate(today), today);
    OnDatesWiden(all, today, CurrentMonth.StartDate(today), today);
  }

  /** A calendar window keeps exactly the entries that start on one of its days:
      today; this week from Monday to today; this month up to today. */
  lemma CalendarWindowDays(w: Window, now: DateTime, e: TimeEntry)
    requires ValidDateTime(now) && !w.IsRolling()
    requires e.start.Some? && ValidDate(e.start.value.date)
    ensures var d, today := e.start.value.date, now.date;
      StartsOn(e, w.StartDate(today), today) <==>
      match w
      case CurrentDay => d == today
      case CurrentWeek => Ordinal(today) - Weekday(today) <= Ordinal(d) <= Ordinal(today)
      case CurrentMonth => d.year == today.year && d.month == today.month && d.day <= today.day
  {
    var d, today := e.start.value.date, now.date;
    match w
    case CurrentDay =>
    case CurrentWeek => WeekWindowIsCurrentWeek(today, d);
    case CurrentMonth => MonthWindowIsCurrentMonth(today, d);
  }

  /** Over entries with no negative durations, a wider rolling window never
      reports less worked time. */
  lemma RollingTotalsOrdered(all: seq<TimeEntry>, now: DateTime)
    requires WindowDefined(Monthly, now) && NonNegative(all)
    ensures WindowDefined(Daily, now) && WindowDefined(Weekly, now)
    ensures SumSeconds(WindowEntries(Daily, all, now)) <= SumSeconds(WindowEntries(Weekly, all, now))
    ensures SumSeconds(WindowEntries(Weekly, all, now)) <= SumSeconds(WindowEntries(Monthly, all, now))
  {
    RollingWindowsNested(all, now);
    var weekly, monthly := WindowEntries(Weekly, all, now), WindowEntries(Monthly, all, now);
    SinceCutoffExact(all, SubHours(now, 168));
    SinceCutoffExact(all, SubHours(now, 720));
    SubseqNonNegative(weekly, all);
    SubseqNonNegative(monthly, all);
    SumSecondsSubseq(WindowEntries(Daily, all, now), weekly);
    SumSecondsSubseq(weekly, monthly);
  }

  /** A subsequence of entries with no negative durations has none either. */
  lemma SubseqNonNegative(a: seq<TimeEntry>, b: seq<TimeEntry>)
    requires Subseq(a, b) && NonNegative(b)
    ensures NonNegative(a)
  {
    forall i | 0 <= i < |a| ensures a[i].seconds.GetOr(0) >= 0 {
      SubseqMembers(a, b, a[i]);
      var j :| 0 <= j < |b| && b[j] == a[i];
    }
  }
}
