/** `TrafficData` and `GitHubDataCollector` of scripts/github_api.py: the
    transforms from the traffic, referrer and repository responses of the API
    to the records the storage layer keeps.

    The collector's API calls are parameters: each is the `Result` that
    `GitHubAPIClient._make_request` produced for that endpoint. `today` and the
    current UTC timestamp are parameters too. */
module GitHubCollector {
  import opened Wrappers
  import opened Calendar
  import GitHubApiClient

  type ApiError = GitHubApiClient.ApiError

  /** A daily entry's `timestamp` as `datetime.fromisoformat` reads it: absent
      or empty (skipped), rejected with a `ValueError`, or the calendar day it
      names. */
  datatype Stamp = Absent | Unparsable | On(date: Date)

  /** One element of the `views` or `clones` series of a traffic response. */
  datatype DayEntry = DayEntry(timestamp: Stamp, count: Option<int>, uniques: Option<int>)

  /** A traffic response: its totals and its daily series (the `views` key of
      the views response, the `clones` key of the clones response). */
  datatype TrafficResponse = TrafficResponse(count: Option<int>, uniques: Option<int>, days: Option<seq<DayEntry>>)

  datatype TrafficData = TrafficData(views: int, uniqueVisitors: int, clones: int, uniqueCloners: int, timestamp: string)

  datatype ReferrerEntry = ReferrerEntry(referrer: Option<string>, count: Option<int>, uniques: Option<int>)

  /** The fields of the repository response the metadata uses. */
  datatype RepoInfo = RepoInfo(
    stargazersCount: Option<int>,
    forksCount: Option<int>,
    watchersCount: Option<int>,
    openIssuesCount: Option<int>,
    size: Option<int>)

  datatype Metadata = Metadata(stars: int, forks: int, watchers: int, openIssues: int, size: int)

  /** What the collector raises: an API error, or the `ValueError` of an
      unreadable timestamp. */
  datatype CollectError = Api(error: ApiError) | ValueError

  /** `TrafficData.from_api_response`: the totals of the two responses, 0 where
      a total is missing. */
  function FromApiResponse(views: TrafficResponse, clones: TrafficResponse, now: string): (t: TrafficData)
    ensures views.count.Some? ==> t.views == views.count.value
    ensures views.count.None? ==> t.views == 0
    ensures views.uniques.Some? ==> t.uniqueVisitors == views.uniques.value
    ensures views.uniques.None? ==> t.uniqueVisitors == 0
    ensures clones.count.Some? ==> t.clones == clones.count.value
    ensures clones.count.None? ==> t.clones == 0
    ensures clones.uniques.Some? ==> t.uniqueCloners == clones.uniques.value
    ensures clones.uniques.None? ==> t.uniqueCloners == 0
    ensures t.timestamp == now
  {
    TrafficData(views.count.GetOr(0), views.uniques.GetOr(0), clones.count.GetOr(0), clones.uniques.GetOr(0), now)
  }

  /** `collect_current_traffic_data`: the views request, then the clones
      request; an error of either is re-raised (the clones request is not made
      when the views request fails). */
  function CollectCurrentTrafficData(
    views: Result<TrafficResponse, ApiError>, clones: Result<TrafficResponse, ApiError>, now: string)
    : (r: Result<TrafficData, ApiError>)
    ensures views.Failure? ==> r == Failure(views.error)
    ensures views.Success? && clones.Failure? ==> r == Failure(clones.error)
    ensures views.Success? && clones.Success? ==> r == Success(FromApiResponse(views.value, clones.value, now))
  {
    if views.Failure? then Failure(views.error)
    else if clones.Failure? then Failure(clones.error)
    else
      var v, c := views.value, clones.value;
      Success(TrafficData(v.count.GetOr(0), v.uniques.GetOr(0), c.count.GetOr(0), c.uniques.GetOr(0), now))
  }

  /** A timestamp `fromisoformat` rejects (a day it names is always a real
      day of the years 1 to 9999). */
  predicate Unreadable(s: Stamp) {
    s.Unparsable? || (s.On? && !PyDate(s.date))
  }

  predicate HasUnreadable(days: seq<DayEntry>) {
    exists i :: 0 <= i < |days| && Unreadable(days[i].timestamp)
  }

  /** `data_by_date` after the first loop of `_fill_missing_days`: each dated
      entry is filed under its day, a later entry replacing an earlier one. */
  function LastByDate(days: seq<DayEntry>): map<Date, DayEntry> {
    if days == [] then map[]
    else
      var e := days[|days| - 1];
      var earlier := LastByDate(days[..|days| - 1]);
      if e.timestamp.On? then earlier[e.timestamp.date := e] else earlier
  }

  /** A day is in the map iff some entry is dated on it. */
  lemma {:induction false} LastByDateDomain(days: seq<DayEntry>, d: Date)
    ensures d in LastByDate(days) <==> exists j :: 0 <= j < |days| && days[j].timestamp == On(d)
  {
    if days != [] {
      var n := |days| - 1;
      LastByDateDomain(days[..n], d);
      if exists j :: 0 <= j < |days| && days[j].timestamp == On(d) {
        var j :| 0 <= j < |days| && days[j].timestamp == On(d);
        if j < n {
          assert days[..n][j] == days[j];
        }
      }
      if exists j :: 0 <= j < n && days[..n][j].timestamp == On(d) {
        var j :| 0 <= j < n && days[..n][j].timestamp == On(d);
        assert days[j] == days[..n][j];
      }
    }
  }

  /** The entry filed under a day is the last input entry dated on it. */
  lemma {:induction false} LastByDateLatest(days: seq<DayEntry>, j: nat)
    requires j < |days| && days[j].timestamp.On?
    requires forall k :: j < k < |days| ==> days[k].timestamp != days[j].timestamp
    ensures days[j].timestamp.date in LastByDate(days)
    ensures LastByDate(days)[days[j].timestamp.date] == days[j]
  {
    var n := |days| - 1;
    if j < n {
      assert days[..n][j] == days[j];
      LastByDateLatest(days[..n], j);
    }
  }

  /** Whatever is filed under a day is an input entry dated on that day. */
  lemma {:induction false} LastByDateValues(days: seq<DayEntry>, d: Date)
    requires d in LastByDate(days)
    ensures LastByDate(days)[d].timestamp == On(d) && LastByDate(days)[d] in days
  {
    var n := |days| - 1;
    var e := days[n];
    if !(e.timestamp == On(d)) {
      LastByDateValues(days[..n], d);
      assert days[..n] <= days;
    }
  }

  /** The zero entry `_fill_missing_days` writes for a day without data; its
      timestamp text is that day's `%Y-%m-%dT00:00:00Z`. */
  function ZeroEntry(d: Date): DayEntry {
    DayEntry(On(d), Some(0), Some(0))
  }

  function WindowEntry(byDate: map<Date, DayEntry>, d: Date): DayEntry {
    if d in byDate then byDate[d] else ZeroEntry(d)
  }

  /** The dates `_fill_missing_days` touches (13 days back, and the day after
      today the loop stops at) are all within Python's `date` range. */
  predicate WindowInRange(today: Date) {
    ValidDate(today) && PyDate(Backward(today, 13)) && PyDate(NextDay(today))
  }

  function WindowStart(today: Date): (d: Date)
    requires ValidDate(today)
    ensures ValidDate(d)
  {
    Backward(today, 13)
  }

  /** The first `n` days from `start`, each with the entry filed under it or
      a zero entry. */
  function DaysFrom(byDate: map<Date, DayEntry>, start: Date, n: nat): (w: seq<DayEntry>)
    requires ValidDate(start)
    ensures |w| == n
    ensures forall i :: 0 <= i < n ==> w[i] == WindowEntry(byDate, Forward(start, i))
  {
    if n == 0 then [] else DaysFrom(byDate, start, n - 1) + [WindowEntry(byDate, Forward(start, n - 1))]
  }

  /** The 14 days ending today, each with the entry filed under it or a zero
      entry. */
  function WindowOf(byDate: map<Date, DayEntry>, today: Date): (w: seq<DayEntry>)
    requires ValidDate(today)
    ensures |w| == 14
  {
    DaysFrom(byDate, WindowStart(today), 14)
  }

  /** The 14 days ending today, each with its last input entry or a zero entry. */
  function Window(daily: seq<DayEntry>, today: Date): (w: seq<DayEntry>)
    requires ValidDate(today)
    ensures |w| == 14
  {
    WindowOf(LastByDate(daily), today)
  }

  /** The first loop of `_fill_missing_days`: file every dated entry under its
      day, raising `ValueError` at the first unreadable timestamp. */
  method IndexByDate(daily: seq<DayEntry>) returns (r: Result<map<Date, DayEntry>, CollectError>)
    ensures r.Failure? <==> HasUnreadable(daily)
    ensures r.Failure? ==> r.error == ValueError
    ensures r.Success? ==> r.value == LastByDate(daily)
  {
    var byDate: map<Date, DayEntry> := map[];
    var i := 0;
    while i < |daily|
      invariant 0 <= i <= |daily|
      invariant byDate == LastByDate(daily[..i])
      invariant !HasUnreadable(daily[..i])
    {
      var stamp := daily[i].timestamp;
      assert daily[..i + 1][..i] == daily[..i];
      if Unreadable(stamp) {
        return Failure(ValueError);
      }
      if stamp.On? {
        byDate := byDate[stamp.date := daily[i]];
      }
      i := i + 1;
      assert !HasUnreadable(daily[..i]) by {
        forall j | 0 <= j < i
          ensures !Unreadable(daily[..i][j].timestamp)
        {
          if j < i - 1 {
            assert daily[..i][j] == daily[..i - 1][j];
          }
        }
      }
    }
    assert daily[..i] == daily;
    return Success(byDate);
  }

  /** Walking forward from 13 days back stays at or before today for exactly
      14 steps. */
  lemma WindowWalk(today: Date, n: nat)
    requires ValidDate(today) && n <= 14
    ensures AtMost(Forward(WindowStart(today), n), today) <==> n < 14
  {
    var start := WindowStart(today);
    ForwardBackward(today, 13);
    if n < 13 {
      ForwardIncreasing(start, n, 13);
    }
  }

  /** The second loop of `_fill_missing_days`: walk from 13 days back to
      today, one entry per day. */
  method FillWindow(byDate: map<Date, DayEntry>, today: Date) returns (out: seq<DayEntry>)
    requires WindowInRange(today)
    ensures out == WindowOf(byDate, today)
  {
    var start := WindowStart(today);
    var current := start;
    out := [];
    var n := 0;
    WindowWalk(today, n);
    while AtMost(current, today)
      invariant 0 <= n <= 14
      invariant current == Forward(start, n)
      invariant AtMost(current, today) <==> n < 14
      invariant out == DaysFrom(byDate, start, n)
      decreases 14 - n
    {
      out := out + [WindowEntry(byDate, current)];
      current := NextDay(current);
      n := n + 1;
      WindowWalk(today, n);
    }
  }

  /** `_fill_missing_days` on the entries of one series. */
  method FillMissingDays(daily: seq<DayEntry>, today: Date) returns (r: Result<seq<DayEntry>, CollectError>)
    requires WindowInRange(today)
    ensures r.Failure? <==> HasUnreadable(daily)
    ensures r.Failure? ==> r.error == ValueError
    ensures r.Success? ==> r.value == Window(daily, today)
  {
    var index := IndexByDate(daily);
    if index.Failure? {
      return Failure(index.error);
    }
    var out := FillWindow(index.value, today);
    return Success(out);
  }

  /** The window holds the 14 consecutive days from 13 days back to today, in
      ascending order, each a day Python's `date` can hold. */
  lemma WindowDates(daily: seq<DayEntry>, today: Date, i: nat)
    requires WindowInRange(today) && !HasUnreadable(daily) && i < 14
    ensures Window(daily, today)[i].timestamp == On(Forward(WindowStart(today), i))
    ensures Forward(WindowStart(today), 13) == today
    ensures i < 13 ==> Forward(WindowStart(today), i + 1) == NextDay(Forward(WindowStart(today), i))
    ensures PyDate(Forward(WindowStart(today), i))
  {
    var start := WindowStart(today);
    var d := Forward(start, i);
    ForwardBackward(today, 13);
    if d in LastByDate(daily) {
      LastByDateValues(daily, d);
    }
    if i > 0 {
      ForwardIncreasing(start, 0, i);
    }
    if i < 13 {
      ForwardIncreasing(start, i, 13);
    }
  }

  /** A window day with input entries holds the last of them, unchanged. */
  lemma WindowKeepsLast(daily: seq<DayEntry>, today: Date, i: nat, j: nat)
    requires ValidDate(today) && i < 14 && j < |daily|
    requires daily[j].timestamp == On(Forward(WindowStart(today), i))
    requires forall k :: j < k < |daily| ==> daily[k].timestamp != daily[j].timestamp
    ensures Window(daily, today)[i] == daily[j]
  {
    LastByDateLatest(daily, j);
  }

  /** A window day without input entries holds a zero entry for that day. */
  lemma WindowFillsGaps(daily: seq<DayEntry>, today: Date, i: nat)
    requires ValidDate(today) && i < 14
    requires forall k :: 0 <= k < |daily| ==> daily[k].timestamp != On(Forward(WindowStart(today), i))
    ensures Window(daily, today)[i] == ZeroEntry(Forward(WindowStart(today), i))
  {
    LastByDateDomain(daily, Forward(WindowStart(today), i));
  }

  /** Entries without a timestamp, or dated outside the window, never appear
      in it. */
  lemma WindowDropsOutside(daily: seq<DayEntry>, today: Date, j: nat)
    requires WindowInRange(today) && !HasUnreadable(daily) && j < |daily|
    requires daily[j].timestamp.Absent? ||
      (daily[j].timestamp.On? && (Before(daily[j].timestamp.date, WindowStart(today)) || Before(today, daily[j].timestamp.date)))
    ensures daily[j] !in Window(daily, today)
  {
    var w := Window(daily, today);
    var start := WindowStart(today);
    forall i | 0 <= i < 14
      ensures w[i] != daily[j]
    {
      WindowDates(daily, today, i);
      var d := Forward(start, i);
      if daily[j].timestamp.On? {
        if i > 0 {
          ForwardIncreasing(start, 0, i);
        }
        if i < 13 {
          ForwardIncreasing(start, i, 13);
        }
      }
    }
  }

  /** `collect_historical_traffic_data`: both series, each filled to the
      14-day window (a missing series counts as empty). */
  method CollectHistoricalTrafficData(
    views: Result<TrafficResponse, ApiError>, clones: Result<TrafficResponse, ApiError>, today: Date)
    returns (r: Result<(seq<DayEntry>, seq<DayEntry>), CollectError>)
    requires WindowInRange(today)
    ensures views.Failure? ==> r == Failure(Api(views.error))
    ensures views.Success? && clones.Failure? ==> r == Failure(Api(clones.error))
    ensures views.Success? && clones.Success? ==>
      var vd, cd := views.value.days.GetOr([]), clones.value.days.GetOr([]);
      (r.Failure? <==> HasUnreadable(vd) || HasUnreadable(cd)) &&
      (r.Failure? ==> r.error == ValueError) &&
      (r.Success? ==> r.value == (Window(vd, today), Window(cd, today)))
  {
    if views.Failure? {
      return Failure(Api(views.error));
    }
    if clones.Failure? {
      return Failure(Api(clones.error));
    }
    var v := FillMissingDays(views.value.days.GetOr([]), today);
    if v.Failure? {
      return Failure(v.error);
    }
    var c := FillMissingDays(clones.value.days.GetOr([]), today);
    if c.Failure? {
      return Failure(c.error);
    }
    return Success((v.value, c.value));
  }

  function ReferrerName(e: ReferrerEntry): string {
    e.referrer.GetOr("unknown")
  }

  /** The referrer map: each name with the count of its last entry. */
  function ReferrerMap(entries: seq<ReferrerEntry>): (m: map<string, int>)
    ensures |m| <= |entries|
  {
    if entries == [] then map[]
    else
      var e := entries[|entries| - 1];
      ReferrerMap(entries[..|entries| - 1])[ReferrerName(e) := e.count.GetOr(0)]
  }

  /** One key per distinct referrer name (`unknown` for a missing name). */
  lemma {:induction false} ReferrerMapDomain(entries: seq<ReferrerEntry>, name: string)
    ensures name in ReferrerMap(entries) <==> exists j :: 0 <= j < |entries| && ReferrerName(entries[j]) == name
  {
    if entries != [] {
      var n := |entries| - 1;
      ReferrerMapDomain(entries[..n], name);
      if exists j :: 0 <= j < |entries| && ReferrerName(entries[j]) == name {
        var j :| 0 <= j < |entries| && ReferrerName(entries[j]) == name;
        if j < n {
          assert entries[..n][j] == entries[j];
        }
      }
      if exists j :: 0 <= j < n && ReferrerName(entries[..n][j]) == name {
        var j :| 0 <= j < n && ReferrerName(entries[..n][j]) == name;
        assert entries[j] == entries[..n][j];
      }
    }
  }

  /** A later entry with the same name overwrites an earlier one; a missing
      count is 0. */
  lemma {:induction false} ReferrerMapLast(entries: seq<ReferrerEntry>, j: nat)
    requires j < |entries|
    requires forall k :: j < k < |entries| ==> ReferrerName(entries[k]) != ReferrerName(entries[j])
    ensures ReferrerName(entries[j]) in ReferrerMap(entries)
    ensures ReferrerMap(entries)[ReferrerName(entries[j])] == entries[j].count.GetOr(0)
  {
    var n := |entries| - 1;
    if j < n {
      assert entries[..n][j] == entries[j];
      ReferrerMapLast(entries[..n], j);
    }
  }

  /** `collect_referrers_data`. */
  method CollectReferrersData(response: Result<seq<ReferrerEntry>, ApiError>)
    returns (r: Result<map<string, int>, ApiError>)
    ensures response.Failure? ==> r == Failure(response.error)
    ensures response.Success? ==> r == Success(ReferrerMap(response.value))
  {
    if response.Failure? {
      return Failure(response.error);
    }
    var entries := response.value;
    var referrers: map<string, int> := map[];
    var i := 0;
    while i < |entries|
      invariant 0 <= i <= |entries|
      invariant referrers == ReferrerMap(entries[..i])
    {
      assert entries[..i + 1][..i] == entries[..i];
      var e := entries[i];
      referrers := referrers[e.referrer.GetOr("unknown") := e.count.GetOr(0)];
      i := i + 1;
    }
    assert entries[..i] == entries;
    return Success(referrers);
  }

  /** `collect_repository_metadata`: five counters of the repository response,
      0 where one is missing; an API error is re-raised. */
  function CollectRepositoryMetadata(info: Result<RepoInfo, ApiError>): (r: Result<Metadata, ApiError>)
    ensures info.Failure? <==> r.Failure?
    ensures info.Failure? ==> r.error == info.error
    ensures info.Success? ==>
      var i := info.value;
      (i.stargazersCount.Some? ==> r.value.stars == i.stargazersCount.value) &&
      (i.stargazersCount.None? ==> r.value.stars == 0) &&
      (i.forksCount.Some? ==> r.value.forks == i.forksCount.value) &&
      (i.forksCount.None? ==> r.value.forks == 0) &&
      (i.watchersCount.Some? ==> r.value.watchers == i.watchersCount.value) &&
      (i.watchersCount.None? ==> r.value.watchers == 0) &&
      (i.openIssuesCount.Some? ==> r.value.openIssues == i.openIssuesCount.value) &&
      (i.openIssuesCount.None? ==> r.value.openIssues == 0) &&
      (i.size.Some? ==> r.value.size == i.size.value) &&
      (i.size.None? ==> r.value.size == 0)
  {
    match info
    case Failure(e) => Failure(e)
    case Success(i) =>
      Success(Metadata(
        i.stargazersCount.GetOr(0), i.forksCount.GetOr(0), i.watchersCount.GetOr(0),
        i.openIssuesCount.GetOr(0), i.size.GetOr(0)))
  }
}
