/** The storage rules of `AnalyticsDataStorage` (scripts/data_storage.py) on
    the documents it keeps per repository, with the files held in memory.

    The daily-metrics file maps each year (JSON key `str(year)`) to a year
    document from date key to record; the referrers file maps a month key to
    referrer counts; the metadata file maps a date key to a metadata record. */
module StorageModel {
  import opened Wrappers
  import opened Calendar
  import opened Utils
  import GitHubCollector

  type DayEntry = GitHubCollector.DayEntry

  /** One day's record. Every writer sets all five fields; a file edited by
      hand may lack some, which the readers count as 0 (or ""). */
  datatype DailyRecord = DailyRecord(
    views: Option<int>,
    uniqueVisitors: Option<int>,
    clones: Option<int>,
    uniqueCloners: Option<int>,
    timestamp: Option<string>)

  type YearDoc = map<string, DailyRecord>
  type DailyFile = map<int, YearDoc>
  type ReferrerFile = map<string, map<string, int>>

  /** The record `store_daily_metrics` writes. */
  function Written(views: int, uniqueVisitors: int, clones: int, uniqueCloners: int, now: string): DailyRecord {
    DailyRecord(Some(views), Some(uniqueVisitors), Some(clones), Some(uniqueCloners), Some(now))
  }

  /** The upsert of `store_daily_metrics`: the record lands at the day's key in
      its year's document; every other key of every year is left alone. */
  function PutDaily(file: DailyFile, d: Date, rec: DailyRecord): (f: DailyFile)
    requires PyDate(d)
    ensures FormatDateKey(d) in LoadDailyData(f, d.year)
    ensures LoadDailyData(f, d.year)[FormatDateKey(d)] == rec
    ensures forall y :: y != d.year ==> LoadDailyData(f, y) == LoadDailyData(file, y)
    ensures forall k :: k != FormatDateKey(d) ==>
      (k in LoadDailyData(f, d.year) <==> k in LoadDailyData(file, d.year)) &&
      (k in LoadDailyData(file, d.year) ==> LoadDailyData(f, d.year)[k] == LoadDailyData(file, d.year)[k])
  {
    file[d.year := LoadDailyData(file, d.year)[FormatDateKey(d) := rec]]
  }

  /** The last write for a day wins. */
  lemma PutDailyLastWins(file: DailyFile, d: Date, r1: DailyRecord, r2: DailyRecord)
    requires PyDate(d)
    ensures PutDaily(PutDaily(file, d, r1), d, r2) == PutDaily(file, d, r2)
  {
    var key := FormatDateKey(d);
    var once := PutDaily(file, d, r1);
    assert LoadDailyData(once, d.year)[key := r2] == LoadDailyData(file, d.year)[key := r2];
  }

  /** Storing the same counters again changes only that day's timestamp. */
  lemma RepeatChangesOnlyTimestamp(
    file: DailyFile, d: Date, views: int, uniqueVisitors: int, clones: int, uniqueCloners: int, t1: string, t2: string)
    requires PyDate(d)
    ensures var once := PutDaily(file, d, Written(views, uniqueVisitors, clones, uniqueCloners, t1));
      var twice := PutDaily(once, d, Written(views, uniqueVisitors, clones, uniqueCloners, t2));
      twice == once[d.year := once[d.year][FormatDateKey(d) := once[d.year][FormatDateKey(d)].(timestamp := Some(t2))]]
  {
    PutDailyLastWins(file, d, Written(views, uniqueVisitors, clones, uniqueCloners, t1), Written(views, uniqueVisitors, clones, uniqueCloners, t2));
  }

  /** The merge of `store_referrers_data` into one month: an incoming count is
      added to the stored one (0 when absent); other referrers stay. */
  function AddCounts(base: map<string, int>, incoming: map<string, int>): (m: map<string, int>)
    ensures m.Keys == base.Keys + incoming.Keys
    ensures forall r :: r in incoming ==> m[r] == SafeGet(base, r, 0) + incoming[r]
    ensures forall r :: r in base && r !in incoming ==> m[r] == base[r]
  {
    map r | r in base.Keys + incoming.Keys :: SafeGet(base, r, 0) + SafeGet(incoming, r, 0)
  }

  function MergeReferrers(file: ReferrerFile, month: string, incoming: map<string, int>): (f: ReferrerFile)
    ensures month in f && f[month] == AddCounts(SafeGet(file, month, map[]), incoming)
    ensures forall m :: m != month ==> (m in f <==> m in file) && (m in file ==> f[m] == file[m])
  {
    file[month := AddCounts(SafeGet(file, month, map[]), incoming)]
  }

  /** Merging twice into the same month adds both counts to the stored one:
      storing 5 and then 3 for a referrer yields 8. */
  lemma MergeTwiceAdds(file: ReferrerFile, month: string, a: map<string, int>, b: map<string, int>, r: string)
    requires r in a || r in b
    ensures var f := MergeReferrers(MergeReferrers(file, month, a), month, b);
      f[month][r] == SafeGet(SafeGet(file, month, map[]), r, 0) + SafeGet(a, r, 0) + SafeGet(b, r, 0)
  {
  }

  // ---------------------------------------------------------------------
  // store_historical_data

  /** The state of `store_historical_data` part-way: the daily file, the
      `success_count`, and whether an exception has ended the run. */
  datatype Pass = Pass(file: DailyFile, created: nat, failed: bool)

  /** The record the views pass creates (clones 0). */
  function ViewsRecord(e: DayEntry, now: string): DailyRecord {
    Written(e.count.GetOr(0), e.uniques.GetOr(0), 0, 0, now)
  }

  /** The record the clones pass creates (views 0). */
  function ClonesRecord(e: DayEntry, now: string): DailyRecord {
    Written(0, 0, e.count.GetOr(0), e.uniques.GetOr(0), now)
  }

  /** The update the clones pass makes to an existing record. */
  function WithClones(rec: DailyRecord, e: DayEntry): DailyRecord {
    rec.(clones := Some(e.count.GetOr(0)), uniqueCloners := Some(e.uniques.GetOr(0)))
  }

  /** One entry of the views loop: create the day's record only when its key
      is absent (through `store_daily_metrics`, counted when its save works). */
  function ViewsStep(p: Pass, e: DayEntry, now: string, diskOk: bool): (q: Pass)
    requires !p.failed
  {
    match e.timestamp
    case Absent => p
    case Unparsable => p.(failed := true)
    case On(d) =>
      if !PyDate(d) then p.(failed := true)
      else if FormatDateKey(d) in LoadDailyData(p.file, d.year) then p
      else if diskOk then Pass(PutDaily(p.file, d, ViewsRecord(e, now)), p.created + 1, false)
      else p
  }

  /** One entry of the clones loop: update the clone counters of an existing
      record, or create one (always counted); then save the year document. */
  function ClonesStep(p: Pass, e: DayEntry, now: string, diskOk: bool): (q: Pass)
    requires !p.failed
  {
    match e.timestamp
    case Absent => p
    case Unparsable => p.(failed := true)
    case On(d) =>
      if !PyDate(d) then p.(failed := true)
      else
        var doc := LoadDailyData(p.file, d.year);
        var key := FormatDateKey(d);
        var present := key in doc;
        var newDoc := if present then doc[key := WithClones(doc[key], e)] else doc[key := ClonesRecord(e, now)];
        Pass(if diskOk then p.file[d.year := newDoc] else p.file, if present then p.created else p.created + 1, false)
  }

  function ViewsPass(start: Pass, days: seq<DayEntry>, now: string, diskOk: bool): Pass {
    if days == [] then start
    else
      var p := ViewsPass(start, days[..|days| - 1], now, diskOk);
      if p.failed then p else ViewsStep(p, days[|days| - 1], now, diskOk)
  }

  function ClonesPass(start: Pass, days: seq<DayEntry>, now: string, diskOk: bool): Pass {
    if days == [] then start
    else
      var p := ClonesPass(start, days[..|days| - 1], now, diskOk);
      if p.failed then p else ClonesStep(p, days[|days| - 1], now, diskOk)
  }

  /** `store_historical_data` on one repository's daily file: the file
      afterwards and the result. */
  function HistoricalStore(file: DailyFile, views: seq<DayEntry>, clones: seq<DayEntry>, now: string, diskOk: bool)
    : (DailyFile, bool)
  {
    var v := ViewsPass(Pass(file, 0, false), views, now, diskOk);
    if v.failed then (v.file, false)
    else
      var c := ClonesPass(v, clones, now, diskOk);
      (c.file, !c.failed && c.created > 0)
  }

  predicate Has(file: DailyFile, d: Date)
    requires PyDate(d)
  {
    FormatDateKey(d) in LoadDailyData(file, d.year)
  }

  function Get(file: DailyFile, d: Date): DailyRecord
    requires PyDate(d) && Has(file, d)
  {
    LoadDailyData(file, d.year)[FormatDateKey(d)]
  }

  /** The views pass never touches a record that is already there. */
  lemma {:induction false} ViewsPassKeepsExisting(start: Pass, days: seq<DayEntry>, now: string, diskOk: bool, d: Date)
    requires PyDate(d) && Has(start.file, d)
    ensures var p := ViewsPass(start, days, now, diskOk);
      Has(p.file, d) && Get(p.file, d) == Get(start.file, d)
  {
    if days != [] {
      ViewsPassKeepsExisting(start, days[..|days| - 1], now, diskOk, d);
      var p := ViewsPass(start, days[..|days| - 1], now, diskOk);
      var e := days[|days| - 1];
      if !p.failed && e.timestamp.On? && PyDate(e.timestamp.date) && FormatDateKey(e.timestamp.date) == FormatDateKey(d) {
        DateKeyInjective(e.timestamp.date, d);
      }
    }
  }

  /** The first views entry of a day that is absent from the file creates its
      record; later entries of the same day leave it untouched. */
  lemma {:induction false} ViewsPassFirstWins(
    start: Pass, days: seq<DayEntry>, now: string, j: nat)
    requires !ViewsPass(start, days, now, true).failed
    requires j < |days| && days[j].timestamp.On? && PyDate(days[j].timestamp.date)
    requires !Has(start.file, days[j].timestamp.date)
    requires forall k :: 0 <= k < j ==> days[k].timestamp != days[j].timestamp
    ensures var p := ViewsPass(start, days, now, true);
      Has(p.file, days[j].timestamp.date) && Get(p.file, days[j].timestamp.date) == ViewsRecord(days[j], now)
  {
    var d := days[j].timestamp.date;
    var n := |days| - 1;
    var prefix := days[..n];
    assert !ViewsPass(start, prefix, now, true).failed;
    if j < n {
      forall k | 0 <= k < j
        ensures prefix[k].timestamp != prefix[j].timestamp
      {
      }
      ViewsPassFirstWins(start, prefix, now, j);
      var p := ViewsPass(start, prefix, now, true);
      ViewsPassKeepsExisting(p, [days[n]], now, true, d);
      assert [days[n]][..0] == [];
    } else {
      ViewsPassAbsent(start, prefix, now, d);
    }
  }

  /** A day no views entry names stays absent. */
  lemma {:induction false} ViewsPassAbsent(start: Pass, days: seq<DayEntry>, now: string, d: Date)
    requires PyDate(d) && !Has(start.file, d)
    requires forall k :: 0 <= k < |days| ==> days[k].timestamp != GitHubCollector.On(d)
    ensures !Has(ViewsPass(start, days, now, true).file, d)
  {
    if days != [] {
      var n := |days| - 1;
      ViewsPassAbsent(start, days[..n], now, d);
      var e := days[n];
      if e.timestamp.On? && PyDate(e.timestamp.date) && FormatDateKey(e.timestamp.date) == FormatDateKey(d) {
        DateKeyInjective(e.timestamp.date, d);
      }
    }
  }

  /** After the clones pass a day holds the counters of its last clones entry. */
  lemma {:induction false} ClonesPassLastWins(start: Pass, days: seq<DayEntry>, now: string, j: nat)
    requires !ClonesPass(start, days, now, true).failed
    requires j < |days| && days[j].timestamp.On? && PyDate(days[j].timestamp.date)
    requires forall k :: j < k < |days| ==> days[k].timestamp != days[j].timestamp
    ensures var p := ClonesPass(start, days, now, true);
      var d := days[j].timestamp.date;
      Has(p.file, d) &&
      Get(p.file, d).clones == Some(days[j].count.GetOr(0)) &&
      Get(p.file, d).uniqueCloners == Some(days[j].uniques.GetOr(0))
  {
    var d := days[j].timestamp.date;
    var n := |days| - 1;
    var prefix := days[..n];
    assert !ClonesPass(start, prefix, now, true).failed;
    if j < n {
      ClonesPassLastWins(start, prefix, now, j);
      var p := ClonesPass(start, prefix, now, true);
      var e := days[n];
      if e.timestamp.On? && PyDate(e.timestamp.date) && FormatDateKey(e.timestamp.date) == FormatDateKey(d) {
        DateKeyInjective(e.timestamp.date, d);
      }
    }
  }

  /** The clones pass keeps the views, unique visitors and timestamp of a
      record that was already there. */
  lemma {:induction false} ClonesPassKeepsViews(start: Pass, days: seq<DayEntry>, now: string, diskOk: bool, d: Date)
    requires PyDate(d) && Has(start.file, d)
    ensures var p := ClonesPass(start, days, now, diskOk);
      Has(p.file, d) &&
      Get(p.file, d).views == Get(start.file, d).views &&
      Get(p.file, d).uniqueVisitors == Get(start.file, d).uniqueVisitors &&
      Get(p.file, d).timestamp == Get(start.file, d).timestamp
  {
    if days != [] {
      var n := |days| - 1;
      ClonesPassKeepsViews(start, days[..n], now, diskOk, d);
      var e := days[n];
      if e.timestamp.On? && PyDate(e.timestamp.date) && FormatDateKey(e.timestamp.date) == FormatDateKey(d) {
        DateKeyInjective(e.timestamp.date, d);
      }
    }
  }

  /** Every dated entry of a series names a day already in the file. */
  predicate AllPresent(file: DailyFile, days: seq<DayEntry>) {
    forall k :: 0 <= k < |days| && days[k].timestamp.On? && PyDate(days[k].timestamp.date) ==>
      Has(file, days[k].timestamp.date)
  }

  lemma {:induction false} ViewsPassNoCreation(start: Pass, days: seq<DayEntry>, now: string, diskOk: bool)
    requires AllPresent(start.file, days)
    ensures var p := ViewsPass(start, days, now, diskOk);
      p.file == start.file && p.created == start.created
  {
    if days != [] {
      ViewsPassNoCreation(start, days[..|days| - 1], now, diskOk);
    }
  }

  lemma {:induction false} ClonesPassNoCreation(start: Pass, days: seq<DayEntry>, now: string, diskOk: bool)
    requires AllPresent(start.file, days)
    ensures ClonesPass(start, days, now, diskOk).created == start.created
  {
    if days != [] {
      var n := |days| - 1;
      assert AllPresent(start.file, days[..n]) by {
        forall k | 0 <= k < n && days[..n][k].timestamp.On? && PyDate(days[..n][k].timestamp.date)
          ensures Has(start.file, days[..n][k].timestamp.date)
        {
          assert days[..n][k] == days[k];
        }
      }
      ClonesPassNoCreation(start, days[..n], now, diskOk);
      var e := days[n];
      if e.timestamp.On? && PyDate(e.timestamp.date) {
        ClonesPassKeepsViews(start, days[..n], now, diskOk, e.timestamp.date);
      }
    }
  }

  /** A run whose entries all name days already stored creates nothing and
      so reports False, even when it updates clone counters. */
  lemma OnlyUpdatesReportFalse(file: DailyFile, views: seq<DayEntry>, clones: seq<DayEntry>, now: string, diskOk: bool)
    requires AllPresent(file, views) && AllPresent(file, clones)
    ensures !HistoricalStore(file, views, clones, now, diskOk).1
  {
    var start := Pass(file, 0, false);
    ViewsPassNoCreation(start, views, now, diskOk);
    var v := ViewsPass(start, views, now, diskOk);
    ClonesPassNoCreation(v, clones, now, diskOk);
  }

  lemma PrefixReadable(days: seq<DayEntry>, n: nat)
    requires n <= |days| && !GitHubCollector.HasUnreadable(days)
    ensures !GitHubCollector.HasUnreadable(days[..n])
  {
    forall j | 0 <= j < n
      ensures !GitHubCollector.Unreadable(days[..n][j].timestamp)
    {
      assert days[..n][j] == days[j];
    }
  }

  /** Without an unreadable timestamp the views pass never fails. */
  lemma {:induction false} ViewsPassSucceeds(start: Pass, days: seq<DayEntry>, now: string, diskOk: bool)
    requires !start.failed && !GitHubCollector.HasUnreadable(days)
    ensures !ViewsPass(start, days, now, diskOk).failed
  {
    if days != [] {
      PrefixReadable(days, |days| - 1);
      ViewsPassSucceeds(start, days[..|days| - 1], now, diskOk);
    }
  }

  /** Without an unreadable timestamp the clones pass never fails. */
  lemma {:induction false} ClonesPassSucceeds(start: Pass, days: seq<DayEntry>, now: string, diskOk: bool)
    requires !start.failed && !GitHubCollector.HasUnreadable(days)
    ensures !ClonesPass(start, days, now, diskOk).failed
  {
    if days != [] {
      PrefixReadable(days, |days| - 1);
      ClonesPassSucceeds(start, days[..|days| - 1], now, diskOk);
    }
  }

  /** The views pass never lowers the count, and a day it adds to the file
      was counted. */
  lemma {:induction false} ViewsPassGrows(start: Pass, days: seq<DayEntry>, now: string, diskOk: bool, d: Date)
    requires PyDate(d)
    ensures var q := ViewsPass(start, days, now, diskOk);
      q.created >= start.created && (!Has(start.file, d) && Has(q.file, d) ==> q.created > start.created)
  {
    if days != [] {
      ViewsPassGrows(start, days[..|days| - 1], now, diskOk, d);
    }
  }

  /** The clones pass never lowers the count, and a day it adds to the file
      was counted (an update keeps the year document's keys). */
  lemma {:induction false} ClonesPassGrows(start: Pass, days: seq<DayEntry>, now: string, diskOk: bool, d: Date)
    requires PyDate(d)
    ensures var q := ClonesPass(start, days, now, diskOk);
      q.created >= start.created && (!Has(start.file, d) && Has(q.file, d) ==> q.created > start.created)
  {
    if days != [] {
      var n := |days| - 1;
      ClonesPassGrows(start, days[..n], now, diskOk, d);
      var p := ClonesPass(start, days[..n], now, diskOk);
      var e := days[n];
      if !p.failed && e.timestamp.On? && PyDate(e.timestamp.date) && !Has(p.file, d) {
        var doc := LoadDailyData(p.file, e.timestamp.date.year);
        var key := FormatDateKey(e.timestamp.date);
        if key in doc && diskOk && d.year == e.timestamp.date.year {
          assert doc[key := WithClones(doc[key], e)].Keys == doc.Keys;
        }
      }
    }
  }

  /** With saves working, a views entry for a day not yet stored is counted. */
  lemma {:induction false} ViewsPassCreates(start: Pass, days: seq<DayEntry>, now: string, k: nat)
    requires !start.failed && !GitHubCollector.HasUnreadable(days)
    requires k < |days| && days[k].timestamp.On? && PyDate(days[k].timestamp.date)
    requires !Has(start.file, days[k].timestamp.date)
    ensures ViewsPass(start, days, now, true).created > start.created
  {
    var n := |days| - 1;
    PrefixReadable(days, n);
    ViewsPassSucceeds(start, days[..n], now, true);
    if k < n {
      assert days[..n][k] == days[k];
      ViewsPassCreates(start, days[..n], now, k);
    } else {
      ViewsPassGrows(start, days[..n], now, true, days[k].timestamp.date);
    }
  }

  /** A clones entry for a day not yet stored is counted, saved or not. */
  lemma {:induction false} ClonesPassCreates(start: Pass, days: seq<DayEntry>, now: string, diskOk: bool, k: nat)
    requires !start.failed && !GitHubCollector.HasUnreadable(days)
    requires k < |days| && days[k].timestamp.On? && PyDate(days[k].timestamp.date)
    requires !Has(start.file, days[k].timestamp.date)
    ensures ClonesPass(start, days, now, diskOk).created > start.created
  {
    var n := |days| - 1;
    PrefixReadable(days, n);
    ClonesPassSucceeds(start, days[..n], now, diskOk);
    if k < n {
      assert days[..n][k] == days[k];
      ClonesPassCreates(start, days[..n], now, diskOk, k);
    } else {
      ClonesPassGrows(start, days[..n], now, diskOk, days[k].timestamp.date);
    }
  }

  /** With saves failing, the views pass neither counts nor writes. */
  lemma {:induction false} ViewsPassWithoutDisk(start: Pass, days: seq<DayEntry>, now: string)
    ensures var p := ViewsPass(start, days, now, false);
      p.file == start.file && p.created == start.created
  {
    if days != [] {
      ViewsPassWithoutDisk(start, days[..|days| - 1], now);
    }
  }

  /** With every timestamp readable, `store_historical_data` returns True
      exactly when an entry was created: a views entry for a day missing
      from the file (when saves work), or a clones entry for a day missing
      after the views pass. */
  lemma HistoricalStoreReportsCreation(file: DailyFile, views: seq<DayEntry>, clones: seq<DayEntry>, now: string, diskOk: bool)
    requires !GitHubCollector.HasUnreadable(views) && !GitHubCollector.HasUnreadable(clones)
    ensures HistoricalStore(file, views, clones, now, diskOk).1 <==>
      (diskOk && !AllPresent(file, views)) ||
      !AllPresent(ViewsPass(Pass(file, 0, false), views, now, diskOk).file, clones)
  {
    var start := Pass(file, 0, false);
    ViewsPassSucceeds(start, views, now, diskOk);
    var v := ViewsPass(start, views, now, diskOk);
    ClonesPassSucceeds(v, clones, now, diskOk);
    var c := ClonesPass(v, clones, now, diskOk);
    if diskOk && !AllPresent(file, views) {
      var k :| 0 <= k < |views| && views[k].timestamp.On? && PyDate(views[k].timestamp.date) &&
        !Has(file, views[k].timestamp.date);
      ViewsPassCreates(start, views, now, k);
      ClonesPassGrows(v, clones, now, diskOk, views[k].timestamp.date);
    } else if !AllPresent(v.file, clones) {
      var k :| 0 <= k < |clones| && clones[k].timestamp.On? && PyDate(clones[k].timestamp.date) &&
        !Has(v.file, clones[k].timestamp.date);
      ClonesPassCreates(v, clones, now, diskOk, k);
    } else {
      if diskOk {
        ViewsPassNoCreation(start, views, now, diskOk);
      } else {
        ViewsPassWithoutDisk(start, views, now);
      }
      ClonesPassNoCreation(v, clones, now, diskOk);
    }
  }

  /** With every save failing, the file is untouched, yet a clones entry for a
      new day still counts as created, so the run reports True. */
  lemma UnsavedClonesReportTrue(file: DailyFile, clones: seq<DayEntry>, now: string, d: Date)
    requires PyDate(d) && !Has(file, d)
    requires clones == [GitHubCollector.DayEntry(GitHubCollector.On(d), Some(1), Some(1))]
    ensures HistoricalStore(file, [], clones, now, false) == (file, true)
  {
    var start := Pass(file, 0, false);
    assert ViewsPass(start, [], now, false) == start;
    assert clones[..0] == [];
    assert ClonesPass(start, clones[..0], now, false) == start;
    assert ClonesPass(start, clones, now, false) == Pass(file, 1, false);
  }

  /** An unreadable timestamp ends the run with False, but what the views
      pass saved before it stays saved. */
  lemma FailureKeepsEarlierSaves(file: DailyFile, e: DayEntry, now: string)
    requires e.timestamp.On? && PyDate(e.timestamp.date) && !Has(file, e.timestamp.date)
    ensures var (f, ok) := HistoricalStore(file, [e, GitHubCollector.DayEntry(GitHubCollector.Unparsable, None, None)], [], now, true);
      !ok && Has(f, e.timestamp.date) && Get(f, e.timestamp.date) == ViewsRecord(e, now)
  {
    var days := [e, GitHubCollector.DayEntry(GitHubCollector.Unparsable, None, None)];
    var start := Pass(file, 0, false);
    var d := e.timestamp.date;
    assert days[..1] == [e];
    assert days[..1][..0] == [];
    var p1 := ViewsPass(start, [e], now, true);
    assert [e][..0] == [];
    assert ViewsPass(start, [], now, true) == start;
    assert p1 == ViewsStep(start, e, now, true);
    assert p1 == Pass(PutDaily(file, d, ViewsRecord(e, now)), 1, false);
    assert ViewsPass(start, days, now, true) == p1.(failed := true);
  }
}
