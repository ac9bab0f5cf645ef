/** scripts/collect_data.py: `DataCollectionOrchestrator` runs, per
    repository, the steps fetch current traffic, store it, fetch and store
    referrers, fetch and store history, mark the repository updated; then a
    batch over the enabled repositories, the report and the exit code of
    `main`.

    The collaborators (the collector, the storage and the configuration) are
    abstract: what each call returns is given as `Outcomes`, and the
    orchestrator records, in order, every call it makes to them. */
module CollectData {
  import opened Wrappers
  import opened Strings
  import opened Calendar
  import opened Config
  import GitHubApiClient
  import opened GitHubCollector

  /** What the collaborators return for one repository. */
  datatype Outcomes = Outcomes(
    traffic: Result<TrafficData, CollectError>,
    dailyStored: bool,
    referrers: Result<map<string, int>, GitHubApiClient.ApiError>,
    history: Result<(seq<DayEntry>, seq<DayEntry>), CollectError>)

  /** A call the orchestrator makes to a collaborator. */
  datatype Call =
    | FetchTraffic(owner: string, name: string)
    | StoreDaily(owner: string, name: string, day: Date, data: TrafficData)
    | FetchReferrers(owner: string, name: string)
    | StoreReferrers(owner: string, name: string, referrers: map<string, int>)
    | FetchHistory(owner: string, name: string)
    | StoreHistory(owner: string, name: string, views: seq<DayEntry>, clones: seq<DayEntry>)
    | UpdateLastUpdated(owner: string, name: string)

  /** `collect_repository_data` for `repo`: the result and the calls made.
      A failed traffic fetch or daily store ends the run with false; an API
      error while fetching referrers or history is logged and passed over;
      a history that cannot be read (`ValueError`) ends the run with false;
      otherwise the repository is marked updated last. */
  function RepositoryRun(repo: Repository, includeHistorical: bool, today: Date, o: Outcomes): (bool, seq<Call>) {
    var owner, name := repo.owner, repo.name;
    if o.traffic.Failure? then (false, [FetchTraffic(owner, name)])
    else
      var stored := [FetchTraffic(owner, name), StoreDaily(owner, name, today, o.traffic.value)];
      if !o.dailyStored then (false, stored)
      else
        var rest := if includeHistorical then HistoryStage(owner, name, o.history)
                    else (true, [UpdateLastUpdated(owner, name)]);
        (rest.0, stored + ReferrersStage(owner, name, o.referrers) + rest.1)
  }

  /** The referrers step: fetch, then store when the fetch gave a non-empty
      map. */
  function ReferrersStage(owner: string, name: string, referrers: Result<map<string, int>, GitHubApiClient.ApiError>): seq<Call> {
    [FetchReferrers(owner, name)] +
    (if referrers.Success? && referrers.value != map[] then [StoreReferrers(owner, name, referrers.value)] else [])
  }

  /** The history step and the final update, when history was requested. */
  function HistoryStage(owner: string, name: string, history: Result<(seq<DayEntry>, seq<DayEntry>), CollectError>): (bool, seq<Call>) {
    match history
    case Failure(ValueError) => (false, [FetchHistory(owner, name)])
    case Failure(Api(_)) => (true, [FetchHistory(owner, name), UpdateLastUpdated(owner, name)])
    case Success((views, clones)) =>
      var store := if views != [] || clones != [] then [StoreHistory(owner, name, views, clones)] else [];
      (true, [FetchHistory(owner, name)] + store + [UpdateLastUpdated(owner, name)])
  }

  /** The run succeeds exactly when the traffic was fetched and stored and
      no requested history failed to read. */
  lemma RunSucceeds(repo: Repository, includeHistorical: bool, today: Date, o: Outcomes)
    ensures RepositoryRun(repo, includeHistorical, today, o).0 <==>
      o.traffic.Success? && o.dailyStored && !(includeHistorical && o.history == Failure(ValueError))
  {
  }

  /** `update_last_updated` is called exactly when the run succeeds: then
      once, as the last call; otherwise never. */
  lemma UpdatedIffSucceeded(repo: Repository, includeHistorical: bool, today: Date, o: Outcomes)
    ensures var (ok, calls) := RepositoryRun(repo, includeHistorical, today, o);
      (ok ==> exists pre :: calls == pre + [UpdateLastUpdated(repo.owner, repo.name)] &&
                            forall c :: c in pre ==> !c.UpdateLastUpdated?) &&
      (!ok ==> forall c :: c in calls ==> !c.UpdateLastUpdated?)
  {
    var (ok, calls) := RepositoryRun(repo, includeHistorical, today, o);
    if ok {
      var pre := calls[..|calls| - 1];
      assert calls == pre + [UpdateLastUpdated(repo.owner, repo.name)];
    }
  }

  /** Referrers are stored only when fetched and non-empty, and only after
      the daily metrics were stored. */
  lemma ReferrersStoredIffNonEmpty(repo: Repository, includeHistorical: bool, today: Date, o: Outcomes)
    ensures (exists c :: c in RepositoryRun(repo, includeHistorical, today, o).1 && c.StoreReferrers?) <==>
      o.traffic.Success? && o.dailyStored && o.referrers.Success? && o.referrers.value != map[]
  {
    var calls := RepositoryRun(repo, includeHistorical, today, o).1;
    if o.traffic.Success? && o.dailyStored && o.referrers.Success? && o.referrers.value != map[] {
      assert calls[3].StoreReferrers?;
    }
  }

  /** History is fetched exactly when requested of a run that got past the
      daily store, and stored exactly when one of its series is non-empty. */
  lemma HistoryFetchedAndStored(repo: Repository, includeHistorical: bool, today: Date, o: Outcomes)
    ensures var calls := RepositoryRun(repo, includeHistorical, today, o).1;
      (FetchHistory(repo.owner, repo.name) in calls <==> includeHistorical && o.traffic.Success? && o.dailyStored) &&
      ((exists c :: c in calls && c.StoreHistory?) <==>
        includeHistorical && o.traffic.Success? && o.dailyStored && o.history.Success? &&
        (o.history.value.0 != [] || o.history.value.1 != []))
  {
    var calls := RepositoryRun(repo, includeHistorical, today, o).1;
    if includeHistorical && o.traffic.Success? && o.dailyStored && o.history.Success? &&
       (o.history.value.0 != [] || o.history.value.1 != []) {
      assert calls[|calls| - 2].StoreHistory?;
    }
  }

  // ---------------------------------------------------------------------
  // collect_all_repositories

  /** An enabled repository and its `last_updated` stamp. */
  datatype EnabledRepo = EnabledRepo(repo: Repository, lastUpdated: Option<string>)

  /** A result dictionary, in insertion order. */
  type Results = seq<(string, bool)>

  predicate HasKey(rs: Results, k: string) {
    exists i :: 0 <= i < |rs| && rs[i].0 == k
  }

  predicate DistinctKeys(rs: Results) {
    forall i, j :: 0 <= i < j < |rs| ==> rs[i].0 != rs[j].0
  }

  /** The position of the first entry for `k`, or `|rs|` when there is
      none. */
  function IndexOf(rs: Results, k: string): (i: nat)
    ensures i <= |rs|
    ensures i < |rs| ==> rs[i].0 == k
    ensures forall j :: 0 <= j < i ==> rs[j].0 != k
  {
    if rs == [] then 0
    else if rs[0].0 == k then 0
    else 1 + IndexOf(rs[1..], k)
  }

  /** `results[k] = v`: a present key keeps its place and takes the new
      value; a new key goes last. */
  function Upsert(rs: Results, k: string, v: bool): (r: Results)
    ensures HasKey(rs, k) ==> |r| == |rs|
    ensures !HasKey(rs, k) ==> r == rs + [(k, v)]
    ensures forall i :: 0 <= i < |rs| ==> r[i].0 == rs[i].0
    ensures forall i :: 0 <= i < |rs| && rs[i].0 != k ==> r[i] == rs[i]
  {
    var i := IndexOf(rs, k);
    if i < |rs| then rs[i := (k, v)] else rs + [(k, v)]
  }

  /** After `results[k] = v` the keys are those before and `k`, still
      distinct, and `k` maps to `v`. */
  lemma UpsertKeys(rs: Results, k: string, v: bool)
    requires DistinctKeys(rs)
    ensures var r := Upsert(rs, k, v);
      DistinctKeys(r) && (forall x :: HasKey(r, x) <==> HasKey(rs, x) || x == k) &&
      (forall i :: 0 <= i < |r| && r[i].0 == k ==> r[i].1 == v)
  {
    var r := Upsert(rs, k, v);
    forall x | HasKey(r, x)
      ensures HasKey(rs, x) || x == k
    {
      var i :| 0 <= i < |r| && r[i].0 == x;
      if i < |rs| {
        assert rs[i].0 == x;
      }
    }
    forall x | HasKey(rs, x) || x == k
      ensures HasKey(r, x)
    {
      if x == k {
        var i := IndexOf(rs, k);
        assert r[i].0 == k;
      } else {
        var i :| 0 <= i < |rs| && rs[i].0 == x;
        assert r[i].0 == x;
      }
    }
  }

  /** With history requested by the flag or for a repository never
      updated. */
  predicate WantsHistory(e: EnabledRepo, includeHistorical: bool) {
    includeHistorical || e.lastUpdated.None?
  }

  /** `collect_all_repositories`: the result dictionary and the calls made. */
  function Collected(repos: seq<EnabledRepo>, includeHistorical: bool, today: Date, outcomes: seq<Outcomes>)
    : (Results, seq<Call>)
    requires |outcomes| == |repos|
  {
    if repos == [] then ([], [])
    else
      var n := |repos| - 1;
      var before := Collected(repos[..n], includeHistorical, today, outcomes[..n]);
      var e := repos[n];
      var run := RepositoryRun(e.repo, WantsHistory(e, includeHistorical), today, outcomes[n]);
      (Upsert(before.0, FullName(e.repo), run.0), before.1 + run.1)
  }

  /** Some repository of `repos` has full name `k`. */
  predicate Named(repos: seq<EnabledRepo>, k: string) {
    exists i :: 0 <= i < |repos| && FullName(repos[i].repo) == k
  }

  lemma NamedPrefix(repos: seq<EnabledRepo>, n: nat, k: string)
    requires n == |repos| - 1
    ensures Named(repos, k) <==> Named(repos[..n], k) || k == FullName(repos[n].repo)
  {
    if Named(repos, k) {
      var i :| 0 <= i < |repos| && FullName(repos[i].repo) == k;
      if i < n {
        assert repos[..n][i] == repos[i];
      }
    }
    if Named(repos[..n], k) {
      var i :| 0 <= i < n && FullName(repos[..n][i].repo) == k;
      assert repos[..n][i] == repos[i];
    }
  }

  /** The results hold one entry per distinct full name among the
      repositories, and no other. */
  lemma {:induction false} CollectedKeys(repos: seq<EnabledRepo>, includeHistorical: bool, today: Date, outcomes: seq<Outcomes>)
    requires |outcomes| == |repos|
    ensures var rs := Collected(repos, includeHistorical, today, outcomes).0;
      DistinctKeys(rs) && forall k :: HasKey(rs, k) <==> Named(repos, k)
  {
    if repos != [] {
      var n := |repos| - 1;
      CollectedKeys(repos[..n], includeHistorical, today, outcomes[..n]);
      var before := Collected(repos[..n], includeHistorical, today, outcomes[..n]).0;
      var e := repos[n];
      var run := RepositoryRun(e.repo, WantsHistory(e, includeHistorical), today, outcomes[n]);
      UpsertKeys(before, FullName(e.repo), run.0);
      forall k
        ensures Named(repos, k) <==> Named(repos[..n], k) || k == FullName(e.repo)
      {
        NamedPrefix(repos, n, k);
      }
    }
  }

  lemma AppendAssociates(a: seq<Call>, b: seq<Call>, c: seq<Call>)
    ensures (a + b) + c == a + (b + c)
  {
  }

  lemma CollectedNext(repos: seq<EnabledRepo>, includeHistorical: bool, today: Date, outcomes: seq<Outcomes>, i: nat)
    requires |outcomes| == |repos| && i < |repos|
    ensures var before := Collected(repos[..i], includeHistorical, today, outcomes[..i]);
      var run := RepositoryRun(repos[i].repo, WantsHistory(repos[i], includeHistorical), today, outcomes[i]);
      Collected(repos[..i + 1], includeHistorical, today, outcomes[..i + 1]) ==
        (Upsert(before.0, FullName(repos[i].repo), run.0), before.1 + run.1)
  {
    assert repos[..i + 1][..i] == repos[..i] && outcomes[..i + 1][..i] == outcomes[..i];
  }

  /** With no two repositories of the same full name, the results hold one
      entry per repository, in order, each the result of its run. */
  lemma {:induction false} CollectedInOrder(repos: seq<EnabledRepo>, includeHistorical: bool, today: Date, outcomes: seq<Outcomes>)
    requires |outcomes| == |repos|
    requires forall i, j :: 0 <= i < j < |repos| ==> FullName(repos[i].repo) != FullName(repos[j].repo)
    ensures var rs := Collected(repos, includeHistorical, today, outcomes).0;
      |rs| == |repos| &&
      forall i :: 0 <= i < |repos| ==>
        rs[i] == (FullName(repos[i].repo), RepositoryRun(repos[i].repo, WantsHistory(repos[i], includeHistorical), today, outcomes[i]).0)
  {
    if repos != [] {
      var n := |repos| - 1;
      var e := repos[n];
      CollectedInOrder(repos[..n], includeHistorical, today, outcomes[..n]);
      CollectedKeys(repos[..n], includeHistorical, today, outcomes[..n]);
      var before := Collected(repos[..n], includeHistorical, today, outcomes[..n]).0;
      forall i | 0 <= i < n
        ensures FullName(repos[..n][i].repo) != FullName(e.repo)
      {
        assert repos[..n][i] == repos[i];
      }
      assert !Named(repos[..n], FullName(e.repo));
      var run := RepositoryRun(e.repo, WantsHistory(e, includeHistorical), today, outcomes[n]);
      var rs := before + [(FullName(e.repo), run.0)];
      forall i | 0 <= i < |repos|
        ensures rs[i] == (FullName(repos[i].repo), RepositoryRun(repos[i].repo, WantsHistory(repos[i], includeHistorical), today, outcomes[i]).0)
      {
        if i < n {
          assert repos[..n][i] == repos[i] && outcomes[..n][i] == outcomes[i];
        }
      }
    }
  }

  /** A repository listed twice keeps the place of its first run and the
      result of its last. */
  lemma DuplicateKeepsFirstPlace(a: EnabledRepo, b: EnabledRepo, includeHistorical: bool, today: Date, oa: Outcomes, ob: Outcomes)
    requires FullName(a.repo) == FullName(b.repo)
    ensures Collected([a, b], includeHistorical, today, [oa, ob]).0 ==
      [(FullName(a.repo), RepositoryRun(b.repo, WantsHistory(b, includeHistorical), today, ob).0)]
  {
    assert [a, b][..1] == [a] && [oa, ob][..1] == [oa];
    assert [a][..0] == [] && [oa][..0] == [];
    assert Collected([a][..0], includeHistorical, today, [oa][..0]) == ([], []);
    var first := Collected([a], includeHistorical, today, [oa]).0;
    assert first == [(FullName(a.repo), RepositoryRun(a.repo, WantsHistory(a, includeHistorical), today, oa).0)];
    assert IndexOf(first, FullName(b.repo)) == 0;
  }

  // ---------------------------------------------------------------------
  // generate_collection_report

  /** The report, without its timestamp and its `success_rate` (a
      floating-point ratio). */
  datatype Report = Report(
    totalRepositories: nat,
    successfulRepositories: nat,
    failedRepositories: nat,
    successfulRepos: seq<string>,
    failedRepos: seq<string>)

  /** The keys whose result is `outcome`, in order. */
  function KeysWith(rs: Results, outcome: bool): (ks: seq<string>)
    ensures |ks| <= |rs|
  {
    if rs == [] then []
    else KeysWith(rs[..|rs| - 1], outcome) + (if rs[|rs| - 1].1 == outcome then [rs[|rs| - 1].0] else [])
  }

  function GenerateCollectionReport(rs: Results): Report {
    var ok, failed := KeysWith(rs, true), KeysWith(rs, false);
    Report(|rs|, |ok|, |failed|, ok, failed)
  }

  /** The successful and the failed keys split the results: their counts
      add up to the total and a key is listed where its result says. */
  lemma {:induction false} ReportPartitions(rs: Results)
    ensures var r := GenerateCollectionReport(rs);
      r.successfulRepositories + r.failedRepositories == r.totalRepositories &&
      (forall k :: k in r.successfulRepos <==> (k, true) in rs) &&
      (forall k :: k in r.failedRepos <==> (k, false) in rs)
  {
    if rs != [] {
      var n := |rs| - 1;
      ReportPartitions(rs[..n]);
      assert rs == rs[..n] + [rs[n]];
    }
  }

  /** No key is listed as failed exactly when every result is a success. */
  lemma {:induction false} NoneFailed(rs: Results)
    ensures KeysWith(rs, false) == [] <==> forall i :: 0 <= i < |rs| ==> rs[i].1
  {
    if rs != [] {
      var n := |rs| - 1;
      NoneFailed(rs[..n]);
      assert forall i :: 0 <= i < n ==> rs[..n][i] == rs[i];
    }
  }

  /** With distinct keys no repository is both successful and failed. */
  lemma ReportDisjoint(rs: Results, k: string)
    requires DistinctKeys(rs)
    ensures !(k in GenerateCollectionReport(rs).successfulRepos && k in GenerateCollectionReport(rs).failedRepos)
  {
    ReportPartitions(rs);
    if (k, true) in rs && (k, false) in rs {
      var i :| 0 <= i < |rs| && rs[i] == (k, true);
      var j :| 0 <= j < |rs| && rs[j] == (k, false);
      assert false;
    }
  }

  // ---------------------------------------------------------------------
  // main

  /** How `main` was invoked and what the early checks found. */
  datatype Invocation = Invocation(
    token: Option<string>,
    configurationValid: bool,
    validateOnly: bool,
    repository: Option<string>)

  /** The exit code of `main`. `lookup` stands for `get_repository`;
      `singleResult` for the run of the one repository; `results` for the
      batch. */
  function ExitCode(inv: Invocation, lookup: map<(string, string), Repository>, singleResult: bool, results: Results)
    : (code: int)
    ensures code == 0 || code == 1
    ensures inv.token.None? || inv.token.value == "" ==> code == 1
    ensures inv.token.Some? && inv.token.value != "" && !inv.configurationValid ==> code == 1
    ensures inv.token.Some? && inv.token.value != "" && inv.configurationValid && inv.validateOnly ==> code == 0
  {
    if inv.token.None? || inv.token.value == "" then 1
    else if !inv.configurationValid then 1
    else if inv.validateOnly then 0
    else if inv.repository.Some? && inv.repository.value != "" then
      var parts := Split(inv.repository.value, '/');
      if |parts| != 2 then 1
      else if (parts[0], parts[1]) !in lookup then 1
      else if !lookup[(parts[0], parts[1])].enabled then 1
      else if singleResult then 0 else 1
    else
      if GenerateCollectionReport(results).failedRepositories == 0 then 0 else 1
  }

  /** In the all-repositories mode the exit code is 0 exactly when no
      repository failed. */
  lemma {:induction false} AllModeExit(inv: Invocation, lookup: map<(string, string), Repository>, singleResult: bool, results: Results)
    requires inv.token.Some? && inv.token.value != "" && inv.configurationValid && !inv.validateOnly
    requires inv.repository.None? || inv.repository.value == ""
    ensures ExitCode(inv, lookup, singleResult, results) == 0 <==> forall i :: 0 <= i < |results| ==> results[i].1
  {
    NoneFailed(results);
  }

  /** In the single-repository mode the exit code is 0 exactly when the
      argument is `owner/name`, that repository is configured and enabled,
      and its run succeeded. */
  lemma SingleModeExit(inv: Invocation, lookup: map<(string, string), Repository>, singleResult: bool, results: Results)
    requires inv.token.Some? && inv.token.value != "" && inv.configurationValid && !inv.validateOnly
    requires inv.repository.Some? && inv.repository.value != ""
    ensures var parts := Split(inv.repository.value, '/');
      ExitCode(inv, lookup, singleResult, results) == 0 <==>
        |parts| == 2 && (parts[0], parts[1]) in lookup && lookup[(parts[0], parts[1])].enabled && singleResult
  {
  }

  // ---------------------------------------------------------------------
  // The orchestrator

  class DataCollectionOrchestrator {
    /** Every call made to a collaborator so far, in order. */
    var calls: seq<Call>

    constructor()
      ensures calls == []
    {
      calls := [];
    }

    /** `collect_repository_data`; `today` stands for the current UTC date. */
    method CollectRepositoryData(repo: Repository, includeHistorical: bool, today: Date, o: Outcomes)
      returns (success: bool)
      modifies this
      ensures success == RepositoryRun(repo, includeHistorical, today, o).0
      ensures calls == old(calls) + RepositoryRun(repo, includeHistorical, today, o).1
    {
      var owner, name := repo.owner, repo.name;
      calls := calls + [FetchTraffic(owner, name)];
      if o.traffic.Failure? {
        return false;
      }
      calls := calls + [StoreDaily(owner, name, today, o.traffic.value)];
      if !o.dailyStored {
        return false;
      }
      FetchAndStoreReferrers(owner, name, o.referrers);
      if includeHistorical {
        success := FetchAndStoreHistory(owner, name, o.history);
      } else {
        calls := calls + [UpdateLastUpdated(owner, name)];
        success := true;
      }
    }

    method FetchAndStoreReferrers(owner: string, name: string, referrers: Result<map<string, int>, GitHubApiClient.ApiError>)
      modifies this
      ensures calls == old(calls) + ReferrersStage(owner, name, referrers)
    {
      calls := calls + [FetchReferrers(owner, name)];
      if referrers.Success? && referrers.value != map[] {
        calls := calls + [StoreReferrers(owner, name, referrers.value)];
      }
    }

    method FetchAndStoreHistory(owner: string, name: string, history: Result<(seq<DayEntry>, seq<DayEntry>), CollectError>)
      returns (success: bool)
      modifies this
      ensures success == HistoryStage(owner, name, history).0
      ensures calls == old(calls) + HistoryStage(owner, name, history).1
    {
      calls := calls + [FetchHistory(owner, name)];
      match history {
        case Failure(e) =>
          if e.ValueError? {
            return false;
          }
        case Success(h) =>
          if h.0 != [] || h.1 != [] {
            calls := calls + [StoreHistory(owner, name, h.0, h.1)];
          }
      }
      calls := calls + [UpdateLastUpdated(owner, name)];
      success := true;
    }

    /** One turn of the batch loop: run the `i`-th repository and record its
        result under its full name. */
    method CollectNext(repos: seq<EnabledRepo>, includeHistorical: bool, today: Date, outcomes: seq<Outcomes>,
                       i: nat, results: Results, ghost start: seq<Call>)
      returns (next: Results)
      requires |outcomes| == |repos| && i < |repos|
      requires results == Collected(repos[..i], includeHistorical, today, outcomes[..i]).0
      requires calls == start + Collected(repos[..i], includeHistorical, today, outcomes[..i]).1
      modifies this
      ensures next == Collected(repos[..i + 1], includeHistorical, today, outcomes[..i + 1]).0
      ensures calls == start + Collected(repos[..i + 1], includeHistorical, today, outcomes[..i + 1]).1
    {
      var e := repos[i];
      ghost var before := Collected(repos[..i], includeHistorical, today, outcomes[..i]).1;
      ghost var run := RepositoryRun(e.repo, WantsHistory(e, includeHistorical), today, outcomes[i]);
      CollectedNext(repos, includeHistorical, today, outcomes, i);
      var ok := CollectRepositoryData(e.repo, WantsHistory(e, includeHistorical), today, outcomes[i]);
      next := Upsert(results, FullName(e.repo), ok);
      AppendAssociates(start, before, run.1);
    }

    /** `collect_all_repositories` over the enabled repositories, with the
        outcomes of each one's run. */
    method CollectAllRepositories(repos: seq<EnabledRepo>, includeHistorical: bool, today: Date, outcomes: seq<Outcomes>)
      returns (results: Results)
      requires |outcomes| == |repos|
      modifies this
      ensures results == Collected(repos, includeHistorical, today, outcomes).0
      ensures calls == old(calls) + Collected(repos, includeHistorical, today, outcomes).1
    {
      ghost var start := calls;
      assert repos[..0] == [] && outcomes[..0] == [];
      results := [];
      var i := 0;
      while i < |repos|
        invariant i <= |repos|
        invariant results == Collected(repos[..i], includeHistorical, today, outcomes[..i]).0
        invariant calls == start + Collected(repos[..i], includeHistorical, today, outcomes[..i]).1
      {
        results := CollectNext(repos, includeHistorical, today, outcomes, i, results, start);
        i := i + 1;
      }
      assert repos[..i] == repos && outcomes[..i] == outcomes;
    }
  }
}
