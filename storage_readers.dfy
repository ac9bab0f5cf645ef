/** The readers of `AnalyticsDataStorage` (scripts/data_storage.py) on a
    repository's daily-metrics file: `get_date_range_metrics`,
    `calculate_monthly_aggregates`, `get_summary_statistics` and
    `export_to_csv`.

    The readers expect `MM-DD` date keys: they split a key on `-` into exactly
    two parts and skip the key otherwise. The writers store `YYYY-MM-DD` keys,
    which split into three parts, so the readers never see what the writers
    store (`WriterKeysRejected`, `WrittenFilesLookEmpty`). */
module StorageReaders {
  import opened Wrappers
  import opened Strings
  import opened Calendar
  import opened Utils
  import opened StorageModel

  /** `DailyMetrics`; its `date` text is the `isoformat()` of that day at
      midnight UTC. */
  datatype DailyMetric = DailyMetric(
    date: Date, views: int, uniqueVisitors: int, clones: int, uniqueCloners: int, timestamp: string)

  function MetricOf(d: Date, rec: DailyRecord): DailyMetric {
    DailyMetric(d, rec.views.GetOr(0), rec.uniqueVisitors.GetOr(0), rec.clones.GetOr(0),
      rec.uniqueCloners.GetOr(0), rec.timestamp.GetOr(""))
  }

  /** `month, day = date_key.split('-')` and `datetime(year, int(month),
      int(day))`; `None` where either raises `ValueError`. */
  function ParseMonthDay(year: int, key: string): (r: Option<Date>)
    ensures r.Some? ==> PyDate(r.value) && r.value.year == year
    ensures r.Some? ==> |Split(key, '-')| == 2
  {
    var parts := Split(key, '-');
    if |parts| != 2 then None
    else match (ParseInt(parts[0]), ParseInt(parts[1]))
      case (Some(m), Some(d)) => if PyDate(Date(year, m, d)) then Some(Date(year, m, d)) else None
      case _ => None
  }

  /** An `MM-DD` key of a real day is read back as that day. */
  lemma MonthDayKeyAccepted(d: Date)
    requires PyDate(d)
    ensures ParseMonthDay(d.year, Pad2(d.month) + "-" + Pad2(d.day)) == Some(d)
  {
    NoDashInDigits(Pad2(d.month));
    NoDashInDigits(Pad2(d.day));
    assert Pad2(d.month) + "-" + Pad2(d.day) == Pad2(d.month) + ['-'] + Pad2(d.day);
    SplitAfter(Pad2(d.month), '-', Pad2(d.day));
    SplitWithout(Pad2(d.day), '-');
    Pad2RoundTrip(d.month);
    Pad2RoundTrip(d.day);
  }

  /** A key as the writers store it is always skipped by the readers. */
  lemma WriterKeysRejected(year: int, d: Date)
    requires PyDate(d)
    ensures ParseMonthDay(year, FormatDateKey(d)) == None
  {
    DateKeyParts(d);
  }

  predicate InRange(d: Date, start: Instant, end: Instant) {
    InstantAtMost(start, Midnight(d)) && InstantAtMost(Midnight(d), end)
  }

  /** A key of year `y` that reads as a date. */
  predicate Readable(file: DailyFile, p: (int, string)) {
    p.1 in LoadDailyData(file, p.0) && ParseMonthDay(p.0, p.1).Some?
  }

  /** A key `get_date_range_metrics` accepts: in a scanned year, readable,
      and at a midnight within [start, end]. */
  predicate Accepted(file: DailyFile, start: Instant, end: Instant, p: (int, string)) {
    start.date.year <= p.0 <= end.date.year && Readable(file, p) &&
    InRange(ParseMonthDay(p.0, p.1).value, start, end)
  }

  function AcceptedKeys(file: DailyFile, start: Instant, end: Instant): (keys: set<(int, string)>)
    ensures forall p :: p in keys <==> Accepted(file, start, end, p)
  {
    set y, k | start.date.year <= y <= end.date.year && k in LoadDailyData(file, y) &&
      Accepted(file, start, end, (y, k)) :: (y, k)
  }

  function MetricAt(file: DailyFile, p: (int, string)): DailyMetric
    requires Readable(file, p)
  {
    MetricOf(ParseMonthDay(p.0, p.1).value, LoadDailyData(file, p.0)[p.1])
  }

  /** Sorted by date (the sort key, the `isoformat()` text, orders days as
      the calendar does). */
  predicate SortedByDate(ms: seq<DailyMetric>) {
    forall i, j :: 0 <= i < j < |ms| ==> Ordinal(ms[i].date) <= Ordinal(ms[j].date)
  }

  /** For real days, sorted means each metric's day is at most the next
      one's. */
  lemma SortedMeansAtMost(ms: seq<DailyMetric>, i: nat, j: nat)
    requires SortedByDate(ms) && i < j < |ms| && ValidDate(ms[i].date) && ValidDate(ms[j].date)
    ensures AtMost(ms[i].date, ms[j].date)
  {
    OrdinalOrder(ms[i].date, ms[j].date);
  }

  /** No metric of `ms` is dated after the day numbered `bound`. */
  predicate AllUpTo(ms: seq<DailyMetric>, bound: int) {
    forall i :: 0 <= i < |ms| ==> Ordinal(ms[i].date) <= bound
  }

  lemma AppendSorted(ms: seq<DailyMetric>, x: DailyMetric)
    requires SortedByDate(ms) && AllUpTo(ms, Ordinal(x.date))
    ensures SortedByDate(ms + [x])
  {
  }

  lemma SameUpTo(ms: seq<DailyMetric>, r: seq<DailyMetric>, m: DailyMetric, bound: int)
    requires multiset(r) == multiset(ms) + multiset{m}
    requires AllUpTo(ms, bound) && Ordinal(m.date) <= bound
    ensures AllUpTo(r, bound)
  {
    forall i | 0 <= i < |r|
      ensures Ordinal(r[i].date) <= bound
    {
      assert r[i] in multiset(r);
      if r[i] != m {
        assert r[i] in multiset(ms);
        assert r[i] in ms;
      }
    }
  }

  /** Places a metric after every metric of an earlier or equal date, as the
      stable sort by date does with a metric appended last. */
  function InsertByDate(ms: seq<DailyMetric>, m: DailyMetric): (r: seq<DailyMetric>)
    requires SortedByDate(ms)
    ensures SortedByDate(r)
    ensures multiset(r) == multiset(ms) + multiset{m}
  {
    if ms == [] then [m]
    else
      var last := ms[|ms| - 1];
      var pre := ms[..|ms| - 1];
      assert ms == pre + [last];
      assert AllUpTo(pre, Ordinal(last.date));
      if Ordinal(m.date) < Ordinal(last.date) then
        var r0 := InsertByDate(pre, m);
        SameUpTo(pre, r0, m, Ordinal(last.date));
        AppendSorted(r0, last);
        r0 + [last]
      else
        AppendSorted(ms, m);
        ms + [m]
  }

  /** Every metric is dated on a real day. */
  predicate Dated(ms: seq<DailyMetric>) {
    forall i :: 0 <= i < |ms| ==> PyDate(ms[i].date)
  }

  /** Every key of `keys` reads as a date and its metric is in `ms`. */
  predicate Covers(file: DailyFile, keys: set<(int, string)>, ms: seq<DailyMetric>) {
    forall p :: p in keys ==> Readable(file, p) && MetricAt(file, p) in ms
  }

  /** Every metric of `ms` is the metric of some key of `keys`. */
  predicate DrawnFrom(file: DailyFile, ms: seq<DailyMetric>, keys: set<(int, string)>) {
    forall m :: m in ms ==> exists p :: p in keys && Readable(file, p) && m == MetricAt(file, p)
  }

  /** The metrics of the keys in `keys`, one per key, as a multiset. */
  ghost function MetricsOf(file: DailyFile, keys: set<(int, string)>): multiset<DailyMetric>
    requires forall p :: p in keys ==> Readable(file, p)
    decreases keys
  {
    if keys == {} then multiset{}
    else
      var p :| p in keys;
      multiset{MetricAt(file, p)} + MetricsOf(file, keys - {p})
  }

  /** Any key can be taken out first: the multiset does not depend on the
      order in which the keys are visited. */
  lemma {:induction false} MetricsOfRemove(file: DailyFile, keys: set<(int, string)>, p: (int, string))
    requires (forall q :: q in keys ==> Readable(file, q)) && p in keys
    ensures MetricsOf(file, keys) == multiset{MetricAt(file, p)} + MetricsOf(file, keys - {p})
    decreases keys
  {
    var q :| q in keys && MetricsOf(file, keys) == multiset{MetricAt(file, q)} + MetricsOf(file, keys - {q});
    if q != p {
      var rest := keys - {q} - {p};
      assert keys - {p} - {q} == rest;
      MetricsOfRemove(file, keys - {q}, p);
      MetricsOfRemove(file, keys - {p}, q);
    }
  }

  /** The metrics of the keys in `keys`, one each, sorted by date. */
  ghost predicate Gathered(file: DailyFile, ms: seq<DailyMetric>, keys: set<(int, string)>) {
    SortedByDate(ms) && |ms| == |keys| && Dated(ms) && Covers(file, keys, ms) && DrawnFrom(file, ms, keys) &&
    multiset(ms) == MetricsOf(file, keys)
  }

  /** What `get_date_range_metrics` returns: the metrics of exactly the
      accepted keys, one each, sorted by date. */
  ghost predicate RangeResult(file: DailyFile, start: Instant, end: Instant, ms: seq<DailyMetric>) {
    Gathered(file, ms, AcceptedKeys(file, start, end))
  }

  lemma InsertKeepsMembers(ms: seq<DailyMetric>, m: DailyMetric)
    requires SortedByDate(ms)
    ensures m in InsertByDate(ms, m)
    ensures forall x :: x in ms ==> x in InsertByDate(ms, m)
    ensures forall x :: x in InsertByDate(ms, m) ==> x in ms || x == m
  {
    var r := InsertByDate(ms, m);
    assert m in multiset(r);
    forall x | x in ms
      ensures x in r
    {
      assert x in multiset(ms);
      assert x in multiset(r);
    }
    forall x | x in r
      ensures x in ms || x == m
    {
      assert x in multiset(r);
      if x != m {
        assert x in multiset(ms);
      }
    }
  }

  lemma InsertDated(ms: seq<DailyMetric>, m: DailyMetric)
    requires SortedByDate(ms) && Dated(ms) && PyDate(m.date)
    ensures Dated(InsertByDate(ms, m))
  {
    var r := InsertByDate(ms, m);
    InsertKeepsMembers(ms, m);
    forall i | 0 <= i < |r|
      ensures PyDate(r[i].date)
    {
      assert r[i] in r;
      if r[i] != m {
        assert r[i] in ms;
      }
    }
  }

  lemma InsertCovers(file: DailyFile, ms: seq<DailyMetric>, keys: set<(int, string)>, p: (int, string))
    requires SortedByDate(ms) && Covers(file, keys, ms) && Readable(file, p)
    ensures Covers(file, keys + {p}, InsertByDate(ms, MetricAt(file, p)))
  {
    InsertKeepsMembers(ms, MetricAt(file, p));
  }

  lemma InsertDrawn(file: DailyFile, ms: seq<DailyMetric>, keys: set<(int, string)>, p: (int, string))
    requires SortedByDate(ms) && DrawnFrom(file, ms, keys) && Readable(file, p)
    ensures DrawnFrom(file, InsertByDate(ms, MetricAt(file, p)), keys + {p})
  {
    var m := MetricAt(file, p);
    InsertKeepsMembers(ms, m);
    forall x | x in InsertByDate(ms, m)
      ensures exists q :: q in keys + {p} && Readable(file, q) && x == MetricAt(file, q)
    {
      if x == m {
        assert p in keys + {p};
      } else {
        var q :| q in keys && Readable(file, q) && x == MetricAt(file, q);
        assert q in keys + {p};
      }
    }
  }

  /** Gathering one more readable key inserts its metric in date order. */
  lemma GatherOne(file: DailyFile, ms: seq<DailyMetric>, keys: set<(int, string)>, p: (int, string))
    requires Gathered(file, ms, keys) && p !in keys && Readable(file, p)
    ensures Gathered(file, InsertByDate(ms, MetricAt(file, p)), keys + {p})
  {
    var m := MetricAt(file, p);
    assert |InsertByDate(ms, m)| == |ms| + 1 by {
      assert |multiset(InsertByDate(ms, m))| == |multiset(ms)| + 1;
    }
    InsertDated(ms, m);
    InsertCovers(file, ms, keys, p);
    InsertDrawn(file, ms, keys, p);
    MetricsOfRemove(file, keys + {p}, p);
    assert keys + {p} - {p} == keys;
  }

  /** `done` holds the accepted keys of the years before `y` and those of
      year `y` outside `left`, the keys still to visit. */
  ghost predicate Scanned(file: DailyFile, start: Instant, end: Instant, y: int, left: set<string>, done: set<(int, string)>) {
    forall p :: p in done <==> Accepted(file, start, end, p) && (p.0 < y || (p.0 == y && p.1 !in left))
  }

  lemma ScanOne(file: DailyFile, start: Instant, end: Instant, y: int, left: set<string>, k: string, done: set<(int, string)>)
    requires Scanned(file, start, end, y, left, done) && k in left
    ensures Accepted(file, start, end, (y, k)) ==> (y, k) !in done
    ensures var done' := if Accepted(file, start, end, (y, k)) then done + {(y, k)} else done;
      Scanned(file, start, end, y, left - {k}, done')
  {
  }

  /** The accepted keys of the years up to `y`. */
  function AcceptedThrough(file: DailyFile, start: Instant, end: Instant, y: int): (keys: set<(int, string)>)
    ensures forall p :: p in keys <==> Accepted(file, start, end, p) && p.0 <= y
  {
    set yy, k | start.date.year <= yy <= y && k in LoadDailyData(file, yy) &&
      Accepted(file, start, end, (yy, k)) :: (yy, k)
  }

  /** The inner loop of `get_date_range_metrics`: the keys of year `y`. */
  method ScanYear(file: DailyFile, start: Instant, end: Instant, y: int, metrics0: seq<DailyMetric>)
    returns (metrics: seq<DailyMetric>)
    requires start.date.year <= y <= end.date.year
    requires Gathered(file, metrics0, AcceptedThrough(file, start, end, y - 1))
    ensures Gathered(file, metrics, AcceptedThrough(file, start, end, y))
  {
    metrics := metrics0;
    ghost var done := AcceptedThrough(file, start, end, y - 1);
    var doc := LoadDailyData(file, y);
    var keys := doc.Keys;
    assert Scanned(file, start, end, y, keys, done);
    while keys != {}
      invariant keys <= doc.Keys
      invariant Scanned(file, start, end, y, keys, done)
      invariant Gathered(file, metrics, done)
      decreases keys
    {
      var k :| k in keys;
      ScanOne(file, start, end, y, keys, k, done);
      keys := keys - {k};
      var parsed := ParseMonthDay(y, k);
      if parsed.Some? && InRange(parsed.value, start, end) {
        assert Accepted(file, start, end, (y, k));
        GatherOne(file, metrics, done, (y, k));
        metrics := InsertByDate(metrics, MetricOf(parsed.value, doc[k]));
        done := done + {(y, k)};
      } else {
        assert !Accepted(file, start, end, (y, k));
      }
    }
    assert done == AcceptedThrough(file, start, end, y);
  }

  /** `get_date_range_metrics` on one repository's daily file. */
  method DateRangeMetrics(file: DailyFile, start: Instant, end: Instant) returns (metrics: seq<DailyMetric>)
    ensures RangeResult(file, start, end, metrics)
  {
    metrics := [];
    var y := start.date.year;
    assert AcceptedThrough(file, start, end, y - 1) == {};
    while y <= end.date.year
      invariant start.date.year <= y
      invariant Gathered(file, metrics, AcceptedThrough(file, start, end, y - 1))
      decreases end.date.year - y
    {
      metrics := ScanYear(file, start, end, y, metrics);
      y := y + 1;
    }
    assert AcceptedThrough(file, start, end, y - 1) == AcceptedKeys(file, start, end);
  }

  /** Every key of every year document has the three parts of a date key, as
      in any file the writers alone have written. */
  predicate OnlyDateKeys(file: DailyFile) {
    forall y, k :: y in file && k in file[y] ==> |Split(k, '-')| == 3
  }

  lemma PutDailyKeepsDateKeys(file: DailyFile, d: Date, rec: DailyRecord)
    requires PyDate(d) && OnlyDateKeys(file)
    ensures OnlyDateKeys(PutDaily(file, d, rec))
  {
    DateKeyParts(d);
  }

  /** A file holding only date keys reads as empty, whatever the range. */
  lemma WrittenFilesLookEmpty(file: DailyFile, start: Instant, end: Instant)
    requires OnlyDateKeys(file)
    ensures AcceptedKeys(file, start, end) == {}
  {
    forall p | p in AcceptedKeys(file, start, end)
      ensures false
    {
    }
  }

  // ---------------------------------------------------------------------
  // calculate_monthly_aggregates

  datatype MonthTotals = MonthTotals(views: int, uniqueVisitors: int, clones: int, uniqueCloners: int, daysCount: nat)

  const NoTotals := MonthTotals(0, 0, 0, 0, 0)

  function Plus(a: MonthTotals, b: MonthTotals): MonthTotals {
    MonthTotals(a.views + b.views, a.uniqueVisitors + b.uniqueVisitors, a.clones + b.clones,
      a.uniqueCloners + b.uniqueCloners, a.daysCount + b.daysCount)
  }

  /** What one day adds to its month: its counters (0 where missing) and one
      day. */
  function Contribution(rec: DailyRecord): MonthTotals {
    MonthTotals(rec.views.GetOr(0), rec.uniqueVisitors.GetOr(0), rec.clones.GetOr(0), rec.uniqueCloners.GetOr(0), 1)
  }

  /** The month part of a two-part key (taken as written, not parsed). */
  function MonthPart(key: string): (r: Option<string>)
    ensures r.Some? <==> |Split(key, '-')| == 2
  {
    var parts := Split(key, '-');
    if |parts| == 2 then Some(parts[0]) else None
  }

  /** `f"{year}-{month}"`. */
  function MonthKey(year: int, month: string): string {
    IntStr(year) + "-" + month
  }

  lemma MonthKeyInjective(year: int, a: string, b: string)
    requires MonthKey(year, a) == MonthKey(year, b)
    ensures a == b
  {
    var n := |IntStr(year) + "-"|;
    assert a == MonthKey(year, a)[n..];
    assert b == MonthKey(year, b)[n..];
  }

  /** The sum of the contributions of the keys in `keys`. */
  ghost function TotalsOf(doc: YearDoc, keys: set<string>): MonthTotals
    requires keys <= doc.Keys
    decreases keys
  {
    if keys == {} then NoTotals
    else
      var k :| k in keys;
      Plus(Contribution(doc[k]), TotalsOf(doc, keys - {k}))
  }

  lemma PlusSwap(a: MonthTotals, b: MonthTotals, c: MonthTotals)
    ensures Plus(a, Plus(b, c)) == Plus(b, Plus(a, c))
  {
  }

  /** Any key can be taken out first: the totals do not depend on the order
      in which the keys are visited. */
  lemma {:induction false} TotalsOfRemove(doc: YearDoc, keys: set<string>, k: string)
    requires keys <= doc.Keys && k in keys
    ensures TotalsOf(doc, keys) == Plus(Contribution(doc[k]), TotalsOf(doc, keys - {k}))
    decreases keys
  {
    var j :| j in keys && TotalsOf(doc, keys) == Plus(Contribution(doc[j]), TotalsOf(doc, keys - {j}));
    if j != k {
      var rest := keys - {j} - {k};
      assert keys - {k} - {j} == rest;
      TotalsOfRemove(doc, keys - {j}, k);
      TotalsOfRemove(doc, keys - {k}, j);
      PlusSwap(Contribution(doc[j]), Contribution(doc[k]), TotalsOf(doc, rest));
    }
  }

  /** `days_count` is the number of keys summed. */
  lemma {:induction false} TotalsOfCount(doc: YearDoc, keys: set<string>)
    requires keys <= doc.Keys
    ensures TotalsOf(doc, keys).daysCount == |keys|
    decreases keys
  {
    if keys != {} {
      var k :| k in keys;
      TotalsOfRemove(doc, keys, k);
      TotalsOfCount(doc, keys - {k});
    }
  }

  /** The keys of `keys` whose month part, as written, is `month`: `01-05`
      and `1-05` belong to different months. */
  function KeysOfMonth(keys: set<string>, month: string): (r: set<string>)
    ensures r <= keys
  {
    set k | k in keys && MonthPart(k) == Some(month)
  }

  /** A visited key joins exactly the month its month part names. */
  lemma KeysOfMonthStep(done: set<string>, k: string)
    ensures forall m :: KeysOfMonth(done + {k}, m) ==
                        if MonthPart(k) == Some(m) then KeysOfMonth(done, m) + {k} else KeysOfMonth(done, m)
  {
  }

  /** `totals` aggregates the keys in `done`: one entry per month part that
      occurs among them, holding the sums over that month's keys. */
  ghost predicate Aggregated(doc: YearDoc, year: int, done: set<string>, totals: map<string, MonthTotals>)
    requires done <= doc.Keys
  {
    (forall m :: MonthKey(year, m) in totals <==> KeysOfMonth(done, m) != {}) &&
    (forall m :: MonthKey(year, m) in totals ==> totals[MonthKey(year, m)] == TotalsOf(doc, KeysOfMonth(done, m))) &&
    (forall mk :: mk in totals ==> exists m :: mk == MonthKey(year, m))
  }

  /** `calculate_monthly_aggregates` on one year document: one entry per
      month part that occurs, holding the sums over that month's keys. */
  method MonthlyAggregates(doc: YearDoc, year: int) returns (totals: map<string, MonthTotals>)
    ensures forall m :: MonthKey(year, m) in totals <==> KeysOfMonth(doc.Keys, m) != {}
    ensures forall m :: MonthKey(year, m) in totals ==> totals[MonthKey(year, m)] == TotalsOf(doc, KeysOfMonth(doc.Keys, m))
    ensures forall mk :: mk in totals ==> exists m :: mk == MonthKey(year, m)
  {
    totals := map[];
    var keys := doc.Keys;
    while keys != {}
      invariant keys <= doc.Keys
      invariant Aggregated(doc, year, doc.Keys - keys, totals)
      decreases keys
    {
      var k :| k in keys;
      ghost var done := doc.Keys - keys;
      keys := keys - {k};
      assert doc.Keys - keys == done + {k};
      totals := AddKey(doc, year, done, k, totals);
    }
    assert doc.Keys - keys == doc.Keys;
  }

  /** One iteration of `calculate_monthly_aggregates`: key `k` joins the
      keys already visited. */
  method AddKey(doc: YearDoc, year: int, ghost done: set<string>, k: string, totals0: map<string, MonthTotals>)
    returns (totals: map<string, MonthTotals>)
    requires done <= doc.Keys && k in doc && k !in done
    requires Aggregated(doc, year, done, totals0)
    ensures Aggregated(doc, year, done + {k}, totals)
  {
    totals := totals0;
    var parts := Split(k, '-');
    if |parts| == 2 {
      var month := parts[0];
      var mk := IntStr(year) + "-" + month;
      var current := if mk in totals then totals[mk] else NoTotals;
      totals := totals[mk := Plus(current, Contribution(doc[k]))];
      AddToMonth(doc, year, done, k, month, totals0);
      assert totals == Bumped(doc, year, month, k, totals0);
    } else {
      KeysOfMonthStep(done, k);
    }
  }

  /** The totals after adding key `k`, of month `month`, to them. */
  function Bumped(doc: YearDoc, year: int, month: string, k: string, totals: map<string, MonthTotals>): map<string, MonthTotals>
    requires k in doc
  {
    var mk := MonthKey(year, month);
    var current := if mk in totals then totals[mk] else NoTotals;
    totals[mk := Plus(current, Contribution(doc[k]))]
  }

  lemma AddToMonth(doc: YearDoc, year: int, done: set<string>, k: string, month: string, totals0: map<string, MonthTotals>)
    requires done <= doc.Keys && k in doc && k !in done && MonthPart(k) == Some(month)
    requires Aggregated(doc, year, done, totals0)
    ensures Aggregated(doc, year, done + {k}, Bumped(doc, year, month, k, totals0))
  {
    KeysOfMonthStep(done, k);
    AddToMonthDomain(doc, year, done, k, month, totals0);
    AddToMonthValues(doc, year, done, k, month, totals0);
    var totals := Bumped(doc, year, month, k, totals0);
    forall x | x in totals
      ensures exists m :: x == MonthKey(year, m)
    {
      if x == MonthKey(year, month) {
        assert x == MonthKey(year, month);
      }
    }
  }

  lemma AddToMonthDomain(doc: YearDoc, year: int, done: set<string>, k: string, month: string, totals0: map<string, MonthTotals>)
    requires done <= doc.Keys && k in doc && k !in done && MonthPart(k) == Some(month)
    requires forall m :: MonthKey(year, m) in totals0 <==> KeysOfMonth(done, m) != {}
    ensures forall m :: MonthKey(year, m) in Bumped(doc, year, month, k, totals0) <==> KeysOfMonth(done + {k}, m) != {}
  {
    KeysOfMonthStep(done, k);
    forall m
      ensures MonthKey(year, m) in Bumped(doc, year, month, k, totals0) <==> KeysOfMonth(done + {k}, m) != {}
    {
      if m == month {
        assert k in KeysOfMonth(done + {k}, m);
      } else if MonthKey(year, m) == MonthKey(year, month) {
        MonthKeyInjective(year, m, month);
      }
    }
  }

  lemma AddToMonthValues(doc: YearDoc, year: int, done: set<string>, k: string, month: string, totals0: map<string, MonthTotals>)
    requires done <= doc.Keys && k in doc && k !in done && MonthPart(k) == Some(month)
    requires forall m :: MonthKey(year, m) in totals0 <==> KeysOfMonth(done, m) != {}
    requires forall m :: MonthKey(year, m) in totals0 ==> totals0[MonthKey(year, m)] == TotalsOf(doc, KeysOfMonth(done, m))
    ensures var totals := Bumped(doc, year, month, k, totals0);
      forall m :: MonthKey(year, m) in totals ==> totals[MonthKey(year, m)] == TotalsOf(doc, KeysOfMonth(done + {k}, m))
  {
    KeysOfMonthStep(done, k);
    var totals := Bumped(doc, year, month, k, totals0);
    forall m | MonthKey(year, m) in totals
      ensures totals[MonthKey(year, m)] == TotalsOf(doc, KeysOfMonth(done + {k}, m))
    {
      if m == month {
        assert KeysOfMonth(done + {k}, m) - {k} == KeysOfMonth(done, m);
        TotalsOfRemove(doc, KeysOfMonth(done + {k}, m), k);
      } else if MonthKey(year, m) == MonthKey(year, month) {
        MonthKeyInjective(year, m, month);
      }
    }
  }

  // ---------------------------------------------------------------------
  // get_summary_statistics

  /** The summary, without the two averages (floating point). */
  datatype Summary = Summary(
    totalViews: int,
    totalUniqueVisitors: int,
    totalClones: int,
    totalUniqueCloners: int,
    daysWithData: nat,
    peakViewsDay: Option<Date>,
    peakViewsCount: int,
    dateRange: Option<(Instant, Instant)>)

  function TotalViews(ms: seq<DailyMetric>): int {
    if ms == [] then 0 else TotalViews(ms[..|ms| - 1]) + ms[|ms| - 1].views
  }

  function TotalUniqueVisitors(ms: seq<DailyMetric>): int {
    if ms == [] then 0 else TotalUniqueVisitors(ms[..|ms| - 1]) + ms[|ms| - 1].uniqueVisitors
  }

  function TotalClones(ms: seq<DailyMetric>): int {
    if ms == [] then 0 else TotalClones(ms[..|ms| - 1]) + ms[|ms| - 1].clones
  }

  function TotalUniqueCloners(ms: seq<DailyMetric>): int {
    if ms == [] then 0 else TotalUniqueCloners(ms[..|ms| - 1]) + ms[|ms| - 1].uniqueCloners
  }

  /** `max(metrics, key=views)`: the first metric with the most views. */
  function PeakIndex(ms: seq<DailyMetric>): (p: nat)
    requires |ms| > 0
    ensures p < |ms|
    ensures forall j :: 0 <= j < |ms| ==> ms[j].views <= ms[p].views
    ensures forall j :: 0 <= j < p ==> ms[j].views < ms[p].views
  {
    if |ms| == 1 then 0
    else
      var p := PeakIndex(ms[..|ms| - 1]);
      assert forall j :: 0 <= j < |ms| - 1 ==> ms[..|ms| - 1][j] == ms[j];
      if ms[|ms| - 1].views > ms[p].views then |ms| - 1 else p
  }

  /** The summary of the metrics in [start, end]: all zero and no peak day
      (nor date range) when there are none. */
  function Summarize(ms: seq<DailyMetric>, start: Instant, end: Instant): (s: Summary)
    ensures ms == [] ==> s == Summary(0, 0, 0, 0, 0, None, 0, None)
    ensures ms != [] ==>
      s.daysWithData == |ms| && s.peakViewsDay.Some? && s.dateRange == Some((start, end)) &&
      (forall j :: 0 <= j < |ms| ==> ms[j].views <= s.peakViewsCount)
    ensures ms != [] ==>
      exists j :: 0 <= j < |ms| && ms[j].date == s.peakViewsDay.value && ms[j].views == s.peakViewsCount &&
        forall i :: 0 <= i < j ==> ms[i].views < s.peakViewsCount
    ensures s.totalViews == TotalViews(ms) && s.totalClones == TotalClones(ms)
    ensures s.totalUniqueVisitors == TotalUniqueVisitors(ms) && s.totalUniqueCloners == TotalUniqueCloners(ms)
  {
    if ms == [] then Summary(0, 0, 0, 0, 0, None, 0, None)
    else
      var p := PeakIndex(ms);
      Summary(TotalViews(ms), TotalUniqueVisitors(ms), TotalClones(ms), TotalUniqueCloners(ms), |ms|,
        Some(ms[p].date), ms[p].views, Some((start, end)))
  }

  /** With no metric below zero views, the peak never exceeds the total. */
  lemma {:induction false} PeakAtMostTotal(ms: seq<DailyMetric>, j: nat)
    requires j < |ms| && forall i :: 0 <= i < |ms| ==> ms[i].views >= 0
    ensures ms[j].views <= TotalViews(ms)
  {
    var n := |ms| - 1;
    if j < n {
      assert forall i :: 0 <= i < n ==> ms[..n][i] == ms[i];
      PeakAtMostTotal(ms[..n], j);
    } else if n > 0 {
      TotalViewsNonNegative(ms[..n]);
    }
  }

  lemma {:induction false} TotalViewsNonNegative(ms: seq<DailyMetric>)
    requires forall i :: 0 <= i < |ms| ==> ms[i].views >= 0
    ensures TotalViews(ms) >= 0
  {
    if ms != [] {
      var n := |ms| - 1;
      assert forall i :: 0 <= i < n ==> ms[..n][i] == ms[i];
      TotalViewsNonNegative(ms[..n]);
    }
  }

  datatype SummaryError = InvalidDefaultStart

  /** The default start: the same calendar day one year before the end, at
      midnight; `datetime` raises `ValueError` when that day does not exist. */
  function DefaultStart(end: Instant): (r: Result<Instant, SummaryError>)
    ensures r.Success? <==> PyDate(Date(end.date.year - 1, end.date.month, end.date.day))
    ensures r.Success? ==> r.value == Midnight(Date(end.date.year - 1, end.date.month, end.date.day))
  {
    var d := Date(end.date.year - 1, end.date.month, end.date.day);
    if PyDate(d) then Success(Midnight(d)) else Failure(InvalidDefaultStart)
  }

  /** Without a start, an end on 29 February makes the default start raise. */
  lemma LeapDayHasNoDefaultStart(end: Instant)
    requires end.date == Date(2024, 2, 29)
    ensures DefaultStart(end).Failure?
  {
  }

  /** `get_summary_statistics` on one repository's daily file; `now` stands
      for `datetime.now(timezone.utc)`. */
  method SummaryStatistics(file: DailyFile, start: Option<Instant>, end: Option<Instant>, now: Instant)
    returns (r: Result<Summary, SummaryError>)
    ensures var e := end.GetOr(now);
      (r.Failure? <==> start.None? && DefaultStart(e).Failure?) &&
      (r.Success? ==>
        var s := if start.Some? then start.value else DefaultStart(e).value;
        exists ms :: RangeResult(file, s, e, ms) && r.value == Summarize(ms, s, e))
  {
    var e := end.GetOr(now);
    var s;
    if start.Some? {
      s := start.value;
    } else {
      var d := DefaultStart(e);
      if d.Failure? {
        return Failure(d.error);
      }
      s := d.value;
    }
    var metrics := DateRangeMetrics(file, s, e);
    return Success(Summarize(metrics, s, e));
  }

  // ---------------------------------------------------------------------
  // export_to_csv

  /** The header line of the CSV export, `Date,Views,Unique Visitors,Clones,Unique Cloners`,
      kept as five pieces so that its lack of a newline is cheap to prove. */
  const CsvHeader: string := "Date," + "Views," + "Unique Visitors," + "Clones," + "Unique Cloners"

  function CsvLine(m: DailyMetric): string
    requires PyDate(m.date)
  {
    FormatDateKey(m.date) + "," + IntStr(m.views) + "," + IntStr(m.uniqueVisitors) + "," +
      IntStr(m.clones) + "," + IntStr(m.uniqueCloners)
  }

  /** One CSV line per metric, in order. */
  function CsvLines(ms: seq<DailyMetric>): seq<string>
    requires forall i :: 0 <= i < |ms| ==> PyDate(ms[i].date)
  {
    seq(|ms|, i requires 0 <= i < |ms| => CsvLine(ms[i]))
  }

  function CsvText(ms: seq<DailyMetric>): string
    requires forall i :: 0 <= i < |ms| ==> PyDate(ms[i].date)
  {
    Join([CsvHeader] + CsvLines(ms), '\n')
  }

  lemma CsvLineOneLine(m: DailyMetric)
    requires PyDate(m.date)
    ensures '\n' !in CsvLine(m)
  {
    NoDashInDigits(Dec(m.date.year));
    assert AllDigits(Pad2(m.date.month)) && AllDigits(Pad2(m.date.day));
    assert '\n' !in FormatDateKey(m.date);
    IntStrHasNo(m.views, '\n');
    IntStrHasNo(m.uniqueVisitors, '\n');
    IntStrHasNo(m.clones, '\n');
    IntStrHasNo(m.uniqueCloners, '\n');
  }

  lemma HeaderOneLine()
    ensures '\n' !in CsvHeader
  {
    assert '\n' !in "Date," && '\n' !in "Views,";
    assert '\n' !in "Unique Visitors," && '\n' !in "Clones," && '\n' !in "Unique Cloners";
  }

  lemma CsvLinesOneLine(ms: seq<DailyMetric>)
    requires forall i :: 0 <= i < |ms| ==> PyDate(ms[i].date)
    ensures forall i :: 0 <= i < |ms| ==> '\n' !in CsvLines(ms)[i]
  {
    forall i | 0 <= i < |ms|
      ensures '\n' !in CsvLines(ms)[i]
    {
      CsvLineOneLine(ms[i]);
    }
  }

  lemma CsvPartsOneLine(ms: seq<DailyMetric>)
    requires forall i :: 0 <= i < |ms| ==> PyDate(ms[i].date)
    ensures forall i :: 0 <= i < |ms| + 1 ==> '\n' !in ([CsvHeader] + CsvLines(ms))[i]
  {
    var lines := CsvLines(ms);
    CsvLinesOneLine(ms);
    HeaderOneLine();
    assert forall i :: 0 < i < |ms| + 1 ==> ([CsvHeader] + lines)[i] == lines[i - 1];
  }

  /** The CSV text splits into the header and one line per metric, in order. */
  lemma CsvTextLines(ms: seq<DailyMetric>)
    requires forall i :: 0 <= i < |ms| ==> PyDate(ms[i].date)
    ensures Split(CsvText(ms), '\n') == [CsvHeader] + CsvLines(ms)
    ensures |Split(CsvText(ms), '\n')| == |ms| + 1
  {
    CsvPartsOneLine(ms);
    SplitJoin([CsvHeader] + CsvLines(ms), '\n');
  }

  /** `export_to_csv` on one repository's daily file: the range defaults to
      1 January 2020 at midnight up to now. */
  method ExportToCsv(file: DailyFile, start: Option<Instant>, end: Option<Instant>, now: Instant) returns (csv: string)
    ensures var s, e := start.GetOr(Midnight(Date(2020, 1, 1))), end.GetOr(now);
      exists ms :: RangeResult(file, s, e, ms) && csv == CsvText(ms)
    ensures |Split(csv, '\n')| == 1 + |AcceptedKeys(file, start.GetOr(Midnight(Date(2020, 1, 1))), end.GetOr(now))|
  {
    var s, e := start.GetOr(Midnight(Date(2020, 1, 1))), end.GetOr(now);
    var metrics := DateRangeMetrics(file, s, e);
    csv := CsvText(metrics);
    CsvTextLines(metrics);
  }
}
