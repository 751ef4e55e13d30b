/** The `TogglApi` client object: the stripped token, the workspace it
    reports on, and the one piece of state it keeps between calls, the
    entries of the sync period fetched once and reused by every window until
    the cache is cleared. The HTTP server is a parameter: each method that
    may send a request is handed what the server answers to it, and the
    client keeps a ghost record of the time-entries queries it sent (the
    `/me` request of token validation is not recorded). */
module Client {
  import opened Wrappers
  import opened Seqs
  import opened Calendar
  import opened IsoFormat
  import opened Transport
  import opened Token
  import opened Entries
  import Validation

  /** The number of months synced when none is configured. */
  const DefaultSyncMonths: nat := 3

  /** A sync month is counted as 30 days. */
  const DaysPerSyncMonth: nat := 30

  /** The `ValueError` raised for a token that is empty once stripped. */
  datatype ConfigError = EmptyToken

  /** The request that fetches the sync period ending `today`. */
  function SyncQuery(today: Date, syncMonths: nat): (q: Query)
    requires ValidDate(today) && DaysPerSyncMonth * syncMonths < Ordinal(today)
    ensures ParseUtc(q.startDate).Some? && ParseUtc(q.endDate).Some?
    ensures Ordinal(ParseUtc(q.startDate).value.date) == Ordinal(today) - DaysPerSyncMonth * syncMonths
    ensures ParseUtc(q.endDate).value.date == today
  {
    RangeQuery(SubDays(today, DaysPerSyncMonth * syncMonths), today)
  }

  /** A window's entries are some of the synced entries, in their order. */
  lemma WindowEntriesWithinSync(w: Window, all: seq<TimeEntry>, now: DateTime)
    requires WindowDefined(w, now)
    ensures Subseq(WindowEntries(w, all, now), all)
  {
    if w.IsRolling() {
      SinceCutoffExact(all, SubHours(now, w.LookbackHours()));
    } else {
      OnDatesExact(all, w.StartDate(now.date), now.date);
    }
  }

  /** No window reports more worked time than the whole sync period holds. */
  lemma WindowTotalWithinSync(w: Window, all: seq<TimeEntry>, now: DateTime)
    requires WindowDefined(w, now) && NonNegative(all)
    ensures 0 <= SumSeconds(WindowEntries(w, all, now)) <= SumSeconds(all)
  {
    WindowEntriesWithinSync(w, all, now);
    SumSecondsSubseq(WindowEntries(w, all, now), all);
    SubseqNonNegative(WindowEntries(w, all, now), all);
    SumSecondsNonNegative(WindowEntries(w, all, now));
  }

  class TogglApi {
    const apiToken: string
    const workspaceId: string
    const syncMonths: nat
    /** `_all_entries_cache`: `None` until the sync period is fetched. An
        empty list is a cached answer too. */
    var entriesCache: Option<seq<TimeEntry>>
    /** The time-entries queries sent so far. */
    ghost var requests: seq<Query>

    /** The token is stripped and not empty; cached entries come from
        normalisation, so none has a negative duration. */
    ghost predicate Valid()
      reads this
    {
      apiToken != [] && Strip(apiToken) == apiToken &&
      (entriesCache.Some? ==> NonNegative(entriesCache.value))
    }

    /** `TogglApi(api_token, workspace_id, sync_months)` for a token that is
        not blank. */
    constructor(token: string, workspaceId: string, syncMonths: nat)
      requires !AllSpace(token)
      ensures apiToken == Strip(token) && this.workspaceId == workspaceId && this.syncMonths == syncMonths
      ensures entriesCache == None && requests == []
      ensures Valid()
    {
      StripEmptyIffBlank(token);
      StripIdempotent(token);
      apiToken := Strip(token);
      this.workspaceId := workspaceId;
      this.syncMonths := syncMonths;
      entriesCache := None;
      requests := [];
    }

    /** Construction, including the `ValueError` for a token that is empty
        or only whitespace. */
    static method Create(token: string, workspaceId: string, syncMonths: nat := DefaultSyncMonths)
      returns (r: Result<TogglApi, ConfigError>)
      ensures r.Failure? <==> AllSpace(token)
      ensures r.Success? ==> fresh(r.value) && r.value.Valid()
      ensures r.Success? ==> r.value.apiToken == Strip(token) && r.value.workspaceId == workspaceId
      ensures r.Success? ==> r.value.syncMonths == syncMonths && r.value.entriesCache == None
    {
      StripEmptyIffBlank(token);
      if Strip(token) == [] {
        return Failure(EmptyToken);
      }
      var api := new TogglApi(token, workspaceId, syncMonths);
      r := Success(api);
    }

    /** `get_time_entries`: one request for the inclusive range, answered by
        `answer`; completed entries only, normalised. A failed request yields
        no entries. */
    method GetTimeEntries(start: Date, end: Date, answer: HttpOutcome<seq<RawEntry>>)
      returns (entries: seq<TimeEntry>)
      requires ValidDate(start) && ValidDate(end)
      modifies this`requests
      ensures requests == old(requests) + [RangeQuery(start, end)]
      ensures entries == Normalized(FetchedEntries(answer))
      ensures NonNegative(entries)
    {
      var query := RangeQuery(start, end);
      requests := requests + [query];
      var raw := FetchedEntries(answer);
      entries := NormalizeEntries(raw);
      NormalizedNonNegative(raw);
    }

    /** `_get_all_entries_for_sync_period`: the cached entries when there are
        any, without a request; otherwise the entries from `syncMonths * 30`
        days before `today` up to `today`, which are then cached. */
    method AllEntriesForSyncPeriod(today: Date, answer: HttpOutcome<seq<RawEntry>>)
      returns (all: seq<TimeEntry>)
      requires Valid() && ValidDate(today)
      requires entriesCache.None? ==> DaysPerSyncMonth * syncMonths < Ordinal(today)
      modifies this`entriesCache, this`requests
      ensures Valid() && entriesCache == Some(all)
      ensures old(entriesCache).Some? ==> all == old(entriesCache).value && requests == old(requests)
      ensures old(entriesCache).None? ==>
        all == Normalized(FetchedEntries(answer)) &&
        requests == old(requests) + [SyncQuery(today, syncMonths)]
    {
      if entriesCache.Some? {
        return entriesCache.value;
      }
      var startDate := SubDays(today, DaysPerSyncMonth * syncMonths);
      all := GetTimeEntries(startDate, today, answer);
      entriesCache := Some(all);
    }

    /** `clear_cache`: the next sync-period read fetches again. */
    method ClearCache()
      requires Valid()
      modifies this`entriesCache
      ensures Valid() && entriesCache == None
    {
      entriesCache := None;
    }

    /** The six `get_*_time_entries` methods: the synced entries, filtered by
        the window at clock reading `now`. */
    method GetWindowEntries(w: Window, now: DateTime, answer: HttpOutcome<seq<RawEntry>>)
      returns (entries: seq<TimeEntry>)
      requires Valid() && WindowDefined(w, now)
      requires entriesCache.None? ==> DaysPerSyncMonth * syncMonths < Ordinal(now.date)
      modifies this`entriesCache, this`requests
      ensures Valid() && entriesCache.Some?
      ensures old(entriesCache).Some? ==> entriesCache == old(entriesCache) && requests == old(requests)
      ensures old(entriesCache).None? ==> entriesCache == Some(Normalized(FetchedEntries(answer)))
      ensures old(entriesCache).None? ==> requests == old(requests) + [SyncQuery(now.date, syncMonths)]
      ensures entries == WindowEntries(w, entriesCache.value, now)
      ensures Subseq(entries, entriesCache.value)
    {
      var all := AllEntriesForSyncPeriod(now.date, answer);
      if w.IsRolling() {
        entries := FilterEntriesByTimestamp(all, now, w.LookbackHours());
      } else {
        entries := FilterEntriesByDate(all, w.StartDate(now.date), now.date);
      }
      WindowEntriesWithinSync(w, all, now);
    }

    /** The six `get_*_worked_time` methods: the window's entries, their total
        in milliseconds, and that total in whole hours and remaining minutes. */
    method GetWorkedTime(w: Window, now: DateTime, answer: HttpOutcome<seq<RawEntry>>)
      returns (summary: WorkedTimeSummary)
      requires Valid() && WindowDefined(w, now)
      requires entriesCache.None? ==> DaysPerSyncMonth * syncMonths < Ordinal(now.date)
      modifies this`entriesCache, this`requests
      ensures Valid() && entriesCache.Some?
      ensures old(entriesCache).Some? ==> entriesCache == old(entriesCache) && requests == old(requests)
      ensures old(entriesCache).None? ==> entriesCache == Some(Normalized(FetchedEntries(answer)))
      ensures old(entriesCache).None? ==> requests == old(requests) + [SyncQuery(now.date, syncMonths)]
      ensures summary.entries == WindowEntries(w, entriesCache.value, now)
      ensures summary.entriesCount == |summary.entries|
      ensures summary.totalDuration == 1000 * SumSeconds(summary.entries)
      ensures 0 <= summary.totalDuration <= 1000 * SumSeconds(entriesCache.value)
      ensures 0 <= summary.durationMinutes < 60
      ensures summary.durationHours * MillisPerHour + summary.durationMinutes * MillisPerMinute <= summary.totalDuration
      ensures summary.totalDuration < summary.durationHours * MillisPerHour + (summary.durationMinutes + 1) * MillisPerMinute
    {
      var entries := GetWindowEntries(w, now, answer);
      summary := WorkedTimeSummaryOf(entries);
      WindowTotalWithinSync(w, entriesCache.value, now);
    }

    /** `validate_api_token`, for this client's workspace. */
    method ValidateApiToken(me: HttpOutcome<Validation.Json>) returns (r: Result<bool, Validation.PyError>)
      ensures r == Validation.ValidateApiToken(workspaceId, me)
      ensures MakeRequest(me).Failure? ==> r == Success(false)
    {
      r := Validation.ValidateApiToken(workspaceId, me);
    }
  }

  /** Two sync-period reads with a one-month client send one request: both
      return what the first answer held, whatever the second would have been,
      and a failed first request leaves an empty cached list. After
      `clear_cache`, the next read uses the new answer. */
  method CacheLifecycle(token: string, workspaceId: string, today: Date,
                        first: HttpOutcome<seq<RawEntry>>, second: HttpOutcome<seq<RawEntry>>,
                        third: HttpOutcome<seq<RawEntry>>)
    returns (result1: seq<TimeEntry>, result2: seq<TimeEntry>, result3: seq<TimeEntry>)
    requires !AllSpace(token) && ValidDate(today) && DaysPerSyncMonth < Ordinal(today)
    ensures result1 == Normalized(FetchedEntries(first)) && result2 == result1
    ensures MakeRequest(first).Failure? ==> result2 == []
    ensures result3 == Normalized(FetchedEntries(third))
  {
    var api := new TogglApi(token, workspaceId, 1);
    result1 := api.AllEntriesForSyncPeriod(today, first);
    if MakeRequest(first).Failure? {
      FailedFetchIsEmpty(first);
    }
    result2 := api.AllEntriesForSyncPeriod(today, second);
    api.ClearCache();
    result3 := api.AllEntriesForSyncPeriod(today, third);
  }
}
