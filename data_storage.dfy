/** `AnalyticsDataStorage` (scripts/data_storage.py): the writers, as a class
    whose fields are the documents on disk, one per repository.

    A repository is keyed by `(owner, repo)`. Loading a document that does
    not exist yields an empty map, so an absent entry and an entry holding
    the empty map read alike. Each writer loads a document, changes it in
    place and saves it; whether the saves of one call succeed is the
    parameter `diskOk`. The clock enters as `today` (the UTC date) and `now`
    (the text of `get_current_utc_timestamp()`).

    The readers take a repository's daily file, `DailyOf(owner, repo)`, and
    are modelled in module StorageReaders. */
module DataStorage {
  import opened Wrappers
  import opened Calendar
  import opened Utils
  import opened StorageModel
  import GitHubCollector

  type Key = (string, string)

  /** The metadata of one day: the given counters, with `timestamp` set to
      the time of storing (replacing any `timestamp` counter). */
  datatype MetadataRecord = MetadataRecord(counters: map<string, int>, timestamp: string)

  type MetadataFile = map<string, MetadataRecord>

  class AnalyticsDataStorage {
    var daily: map<Key, DailyFile>
    var metadata: map<Key, MetadataFile>
    var referrers: map<Key, ReferrerFile>

    function DailyOf(owner: string, repo: string): DailyFile
      reads this
    {
      SafeGet(daily, (owner, repo), map[])
    }

    function MetadataOf(owner: string, repo: string): MetadataFile
      reads this
    {
      SafeGet(metadata, (owner, repo), map[])
    }

    function ReferrersOf(owner: string, repo: string): ReferrerFile
      reads this
    {
      SafeGet(referrers, (owner, repo), map[])
    }

    constructor()
      ensures daily == map[] && metadata == map[] && referrers == map[]
    {
      daily, metadata, referrers := map[], map[], map[];
    }

    /** `store_daily_metrics`: upserts the day's record, with the four
        counters and the current timestamp, into its year's document. */
    method StoreDailyMetrics(owner: string, repo: string, d: Date,
                             views: int, uniqueVisitors: int, clones: int, uniqueCloners: int,
                             now: string, diskOk: bool) returns (success: bool)
      requires PyDate(d)
      modifies this
      ensures success == diskOk
      ensures daily == if diskOk
        then old(daily)[(owner, repo) := PutDaily(old(DailyOf(owner, repo)), d, Written(views, uniqueVisitors, clones, uniqueCloners, now))]
        else old(daily)
      ensures metadata == old(metadata) && referrers == old(referrers)
    {
      var file := DailyOf(owner, repo);
      var doc := LoadDailyData(file, d.year);
      doc := doc[FormatDateKey(d) := Written(views, uniqueVisitors, clones, uniqueCloners, now)];
      if diskOk {
        daily := daily[(owner, repo) := file[d.year := doc]];
      }
      success := diskOk;
    }

    /** `store_repository_metadata`: records the metadata under today's date
        key. The success log line reads `stars` and `forks`; when either is
        missing it raises after the save, and the call reports failure. */
    method StoreRepositoryMetadata(owner: string, repo: string, md: map<string, int>,
                                   today: Date, now: string, diskOk: bool) returns (success: bool)
      requires PyDate(today)
      modifies this
      ensures success <==> diskOk && "stars" in md && "forks" in md
      ensures metadata == if diskOk
        then old(metadata)[(owner, repo) := old(MetadataOf(owner, repo))[FormatDateKey(today) := MetadataRecord(md - {"timestamp"}, now)]]
        else old(metadata)
      ensures daily == old(daily) && referrers == old(referrers)
    {
      var file := MetadataOf(owner, repo);
      file := file[FormatDateKey(today) := MetadataRecord(md - {"timestamp"}, now)];
      if diskOk {
        metadata := metadata[(owner, repo) := file];
        success := "stars" in md && "forks" in md;
      } else {
        success := false;
      }
    }

    /** `store_referrers_data`: adds each incoming count to the month's
        stored count (0 when absent); the month defaults to today's
        `YYYY-MM`. */
    method StoreReferrersData(owner: string, repo: string, incoming: map<string, int>,
                              month: Option<string>, today: Date, diskOk: bool) returns (success: bool)
      requires PyDate(today)
      modifies this
      ensures success == diskOk
      ensures referrers == if diskOk
        then old(referrers)[(owner, repo) := MergeReferrers(old(ReferrersOf(owner, repo)), month.GetOr(FormatMonthKey(today)), incoming)]
        else old(referrers)
      ensures daily == old(daily) && metadata == old(metadata)
    {
      var m := if month.Some? then month.value else FormatMonthKey(today);
      var file := ReferrersOf(owner, repo);
      var counts := AddReferrerCounts(SafeGet(file, m, map[]), incoming);
      file := file[m := counts];
      if diskOk {
        referrers := referrers[(owner, repo) := file];
      }
      success := diskOk;
    }

    /** `store_historical_data`: the views pass creates the missing days, the
        clones pass updates or creates each day and saves it; the result is
        whether some day was created. An unreadable timestamp raises: the
        saves made so far stay and the result is false. */
    method StoreHistoricalData(owner: string, repo: string,
                               views: seq<GitHubCollector.DayEntry>, clones: seq<GitHubCollector.DayEntry>,
                               now: string, diskOk: bool) returns (success: bool)
      modifies this
      ensures daily == old(daily)[(owner, repo) := HistoricalStore(old(DailyOf(owner, repo)), views, clones, now, diskOk).0]
      ensures success == HistoricalStore(old(DailyOf(owner, repo)), views, clones, now, diskOk).1
      ensures metadata == old(metadata) && referrers == old(referrers)
    {
      var file0 := DailyOf(owner, repo);
      var v := StoreViews(file0, views, now, diskOk);
      if v.failed {
        daily := daily[(owner, repo) := v.file];
        return false;
      }
      var c := StoreClones(v, clones, now, diskOk);
      daily := daily[(owner, repo) := c.file];
      success := !c.failed && c.created > 0;
    }
  }

  /** The loop of `store_referrers_data` over the incoming referrers. */
  method AddReferrerCounts(base: map<string, int>, incoming: map<string, int>) returns (counts: map<string, int>)
    ensures counts == AddCounts(base, incoming)
  {
    counts := base;
    var left := incoming.Keys;
    while left != {}
      invariant left <= incoming.Keys
      invariant counts == AddCounts(base, Visited(incoming, left))
      decreases left
    {
      var r :| r in left;
      VisitOne(base, incoming, left, r);
      if r in counts {
        counts := counts[r := counts[r] + incoming[r]];
      } else {
        counts := counts[r := incoming[r]];
      }
      left := left - {r};
    }
    assert Visited(incoming, {}) == incoming;
  }

  /** The incoming counts already visited: those outside `left`. */
  function Visited(incoming: map<string, int>, left: set<string>): map<string, int> {
    map r | r in incoming && r !in left :: incoming[r]
  }

  lemma VisitOne(base: map<string, int>, incoming: map<string, int>, left: set<string>, r: string)
    requires r in left && left <= incoming.Keys
    ensures var counts := AddCounts(base, Visited(incoming, left));
      AddCounts(base, Visited(incoming, left - {r})) == counts[r := SafeGet(counts, r, 0) + incoming[r]]
  {
    var v1, v2 := Visited(incoming, left - {r}), Visited(incoming, left)[r := incoming[r]];
    assert v1.Keys == v2.Keys;
    forall x | x in v1
      ensures v1[x] == v2[x]
    {
    }
    assert v1 == v2;
    AddCountsStep(base, Visited(incoming, left), r, incoming[r]);
  }

  /** Visiting one more referrer adds its count to the stored one. */
  lemma AddCountsStep(base: map<string, int>, visited: map<string, int>, r: string, count: int)
    requires r !in visited
    ensures AddCounts(base, visited[r := count]) ==
      AddCounts(base, visited)[r := SafeGet(AddCounts(base, visited), r, 0) + count]
  {
    var lhs := AddCounts(base, visited[r := count]);
    var rhs := AddCounts(base, visited)[r := SafeGet(AddCounts(base, visited), r, 0) + count];
    assert lhs.Keys == rhs.Keys;
    forall x | x in lhs
      ensures lhs[x] == rhs[x]
    {
    }
  }

  /** The views loop of `store_historical_data`. */
  method StoreViews(file0: DailyFile, views: seq<GitHubCollector.DayEntry>, now: string, diskOk: bool) returns (p: Pass)
    ensures p == ViewsPass(Pass(file0, 0, false), views, now, diskOk)
  {
    var file := file0;
    var created := 0;
    var i := 0;
    while i < |views|
      invariant i <= |views|
      invariant ViewsPass(Pass(file0, 0, false), views[..i], now, diskOk) == Pass(file, created, false)
    {
      ViewsPassNext(Pass(file0, 0, false), views, i, now, diskOk);
      var e := views[i];
      match e.timestamp {
        case Absent =>
        case Unparsable =>
          p := Pass(file, created, true);
          ViewsPassStops(Pass(file0, 0, false), views, i + 1, now, diskOk);
          return;
        case On(d) =>
          if !PyDate(d) {
            p := Pass(file, created, true);
            ViewsPassStops(Pass(file0, 0, false), views, i + 1, now, diskOk);
            return;
          }
          var doc := LoadDailyData(file, d.year);
          if FormatDateKey(d) !in doc && diskOk {
            file := PutDaily(file, d, ViewsRecord(e, now));
            created := created + 1;
          }
      }
      i := i + 1;
    }
    assert views[..i] == views;
    p := Pass(file, created, false);
  }

  /** The clones loop of `store_historical_data`. */
  method StoreClones(start: Pass, clones: seq<GitHubCollector.DayEntry>, now: string, diskOk: bool) returns (p: Pass)
    requires !start.failed
    ensures p == ClonesPass(start, clones, now, diskOk)
  {
    var file := start.file;
    var created := start.created;
    var i := 0;
    while i < |clones|
      invariant i <= |clones|
      invariant ClonesPass(start, clones[..i], now, diskOk) == Pass(file, created, false)
    {
      ClonesPassNext(start, clones, i, now, diskOk);
      var e := clones[i];
      match e.timestamp {
        case Absent =>
        case Unparsable =>
          p := Pass(file, created, true);
          ClonesPassStops(start, clones, i + 1, now, diskOk);
          return;
        case On(d) =>
          if !PyDate(d) {
            p := Pass(file, created, true);
            ClonesPassStops(start, clones, i + 1, now, diskOk);
            return;
          }
          var doc := LoadDailyData(file, d.year);
          var key := FormatDateKey(d);
          if key in doc {
            doc := doc[key := WithClones(doc[key], e)];
          } else {
            doc := doc[key := ClonesRecord(e, now)];
            created := created + 1;
          }
          if diskOk {
            file := file[d.year := doc];
          }
      }
      i := i + 1;
    }
    assert clones[..i] == clones;
    p := Pass(file, created, false);
  }

  lemma ViewsPassNext(start: Pass, days: seq<GitHubCollector.DayEntry>, i: nat, now: string, diskOk: bool)
    requires i < |days|
    ensures var p := ViewsPass(start, days[..i], now, diskOk);
      ViewsPass(start, days[..i + 1], now, diskOk) == if p.failed then p else ViewsStep(p, days[i], now, diskOk)
  {
    assert days[..i + 1][..i] == days[..i];
  }

  lemma ClonesPassNext(start: Pass, days: seq<GitHubCollector.DayEntry>, i: nat, now: string, diskOk: bool)
    requires i < |days|
    ensures var p := ClonesPass(start, days[..i], now, diskOk);
      ClonesPass(start, days[..i + 1], now, diskOk) == if p.failed then p else ClonesStep(p, days[i], now, diskOk)
  {
    assert days[..i + 1][..i] == days[..i];
  }

  /** Once the views pass has failed, the rest of the entries change
      nothing. */
  lemma {:induction false} ViewsPassStops(start: Pass, days: seq<GitHubCollector.DayEntry>, n: nat, now: string, diskOk: bool)
    requires n <= |days| && ViewsPass(start, days[..n], now, diskOk).failed
    ensures ViewsPass(start, days, now, diskOk) == ViewsPass(start, days[..n], now, diskOk)
    decreases |days| - n
  {
    if n < |days| {
      assert days[..n + 1][..n] == days[..n];
      ViewsPassStops(start, days, n + 1, now, diskOk);
    } else {
      assert days[..n] == days;
    }
  }

  lemma {:induction false} ClonesPassStops(start: Pass, days: seq<GitHubCollector.DayEntry>, n: nat, now: string, diskOk: bool)
    requires n <= |days| && ClonesPass(start, days[..n], now, diskOk).failed
    ensures ClonesPass(start, days, now, diskOk) == ClonesPass(start, days[..n], now, diskOk)
    decreases |days| - n
  {
    if n < |days| {
      assert days[..n + 1][..n] == days[..n];
      ClonesPassStops(start, days, n + 1, now, diskOk);
    } else {
      assert days[..n] == days;
    }
  }
}
