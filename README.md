# GitHub traffic collector, modelled in Dafny

This project models the core of a small Python tool that collects GitHub
traffic data (views, clones, referrers, repository metadata) for configured
repositories and keeps it in JSON files. Five scripts are modelled:

- `scripts/github_api.py`: the retry and rate-limit state machine of
  `GitHubAPIClient._make_request`, and the transforms of `GitHubDataCollector`.
  The most involved of these is `_fill_missing_days`, which turns the API's
  sparse daily list into exactly 14 consecutive days ending today.
- `scripts/data_storage.py`: the stores of `AnalyticsDataStorage`:
  - the overwriting upsert of `store_daily_metrics`;
  - the additive referrer merge;
  - the asymmetric views/clones passes of `store_historical_data`.

  It also covers the readers: `get_date_range_metrics`,
  `calculate_monthly_aggregates`, `get_summary_statistics` and
  `export_to_csv`.
- `scripts/collect_data.py`: `DataCollectionOrchestrator`. This covers the
  per-repository steps, the batch loop, the collection report, and the exit
  code of `main`.
- `scripts/utils.py`: the repository-string parser, truncation, the date and
  month key formatters, `safe_get` and the year selection of
  `load_daily_data`.
- `scripts/config.py`: `Repository.full_name` and the `ConfigManager`
  caches, repository-list parsing, token lookup and the check order of
  `validate_config`.

Modules, one per file:

- `Wrappers`: `Option` and `Result`.
- `Strings`: decimal digits, `split` and `join`.
- `Calendar`: civil dates, one day forward or back, and the ordinal used to
  sort them.
- `Utils`: the helpers of `scripts/utils.py`.
- `Config`: the configuration model.
- `GitHubApiClient`: the request loop, as a `Client` class over its
  rate-limit fields and a millisecond clock.
- `GitHubCollector`: the collector transforms.
- `StorageModel`: the pure storage rules on the JSON documents.
- `StorageReaders`: the four readers.
- `DataStorage`: the `AnalyticsDataStorage` class, whose methods update the
  files it holds in memory.
- `CollectData`: the orchestrator, a class that records every call it makes
  to its collaborators.

How the world outside the code is represented:

- **Time.** The clock, `today` and `now` are parameters.
- **The network.** The server is a scripted sequence of outcomes, one per
  request.
- **Saves.** Every file save within one store call succeeds or fails
  together; a flag `diskOk` says which.
- **Collaborators.** What the collector, the storage and the configuration
  return to the orchestrator is given as data.

Three behaviours of the code are reproduced as written:

- **Date keys.** The writers key entries `YYYY-MM-DD`, while the readers
  split a key at `-` and expect exactly two parts (`MM-DD`). Every key the
  writers produce is therefore skipped by the readers; see
  `StorageReaders.WriterKeysRejected` and
  `StorageReaders.WrittenFilesLookEmpty`.
- **Rate-limited 403.** The response sleeps and then `continue`s the
  `for attempt` loop, so it uses up an attempt. A run whose last attempt is
  rate-limited ends with the final "failed after retries" error.
- **Clones pass.** `store_historical_data` counts a created clones entry
  before its save, and ignores the save's result.

## Model

| member | source | states |
|---|---|---|
| Calendar.NextDay | scripts/github_api.py:325 | `current_date += timedelta(days=1)`: the next day is a valid date strictly after the given one |
| Calendar.PrevDay | scripts/github_api.py:309 | one day back is a valid date strictly before the given one |
| Calendar.NothingBetween | scripts/github_api.py:325 | no date lies strictly between a day and the next day, so stepping by one day visits consecutive dates |
| Calendar.ForwardBackward | scripts/github_api.py:309-325 | going 13 days back from today and 13 days forward returns to today: the window ends exactly on `end_date` |
| Calendar.ForwardIncreasing | scripts/github_api.py:312-325 | the dates the window loop visits strictly increase |
| Calendar.OrdinalOrder | scripts/data_storage.py:188 | sorting by the isoformat date string is sorting by date: the ordinal is ordered and injective exactly as dates are |
| Strings.DecRoundTrip | scripts/data_storage.py:172 | `int()` of the decimal text of a natural number gives that number back |
| Strings.Pad2RoundTrip | scripts/data_storage.py:172 | `int()` of a two-digit zero-padded month or day gives it back |
| Strings.SplitJoin | scripts/data_storage.py:345 | splitting a `'\n'.join` of lines that hold no newline gives back exactly those lines |
| Utils.ParseRepositoryString | scripts/utils.py:97-104 | on success `owner + "/" + name` is the input, both parts are non-empty and the owner has no `/`; otherwise the error is `ValueError` carrying the input |
| Utils.ParseJoined | scripts/utils.py:97-104 | conversely, every `owner/name` with non-empty parts and no `/` in the owner parses into exactly those parts |
| Utils.SliceTo | scripts/utils.py:133 | Python's `text[:k]` for any integer k: a prefix of the text, of length k when 0 <= k <= len, of length max(0, len + k) when k < 0, and the whole text when k > len |
| Utils.TruncateString | scripts/utils.py:131-133 | unchanged when `len <= max_length`; otherwise a prefix of the text followed by `...`, of length exactly `max_length` when `max_length >= 3`, and of length 3 + max(0, len + max_length - 3) when `max_length < 3` |
| Utils.FormatDateKey | scripts/utils.py:194-203 | `%Y-%m-%d` is ten characters for four-digit years |
| Utils.FormatMonthKey | scripts/utils.py:206-215 | `%Y-%m` is the date key minus its last three characters (`-DD`) |
| Utils.DateKeyParts | scripts/utils.py:203 | a date key splits at `-` into exactly three parts: year, padded month, padded day |
| Utils.DateKeyRoundTrip | scripts/utils.py:203 | parsing a date key back gives the date it was formatted from |
| Utils.DateKeyInjective | scripts/utils.py:203 | two dates with the same key are the same date |
| Utils.SafeGet | scripts/utils.py:107-118 | the stored value when the key is present, else the default |
| Utils.LoadDailyData | scripts/utils.py:294-298 | the year's sub-document when the year is present, else an empty map |
| Config.FullNameRoundTrip | scripts/config.py:21-23 | `full_name` and `parse_repository_string` are inverse to each other for an owner without `/` and non-empty parts |
| Config.EntryRepository | scripts/config.py:78-90 | a string entry is kept iff it contains `/`, split at the first `/`, enabled; a dict entry is kept iff owner and name are truthy, `enabled` defaulting to true; other entries are dropped |
| Config.ParseRepositories | scripts/config.py:77-90 | the parsed list is never longer than the entry list |
| Config.ParseRepositoriesAppend | scripts/config.py:78-90 | parsing is entry by entry: the parse of a concatenation is the concatenation of the parses, so config order is kept |
| Config.ParseRepositoriesMembers | scripts/config.py:78-90 | a repository is in the list iff some entry yields it |
| Config.TextEntryKeepsEmptyOwner | scripts/config.py:79-83 | the string branch accepts `"/x"` with an empty owner, which `parse_repository_string` rejects |
| Config.TokenFrom | scripts/config.py:101-107 | a non-empty environment token wins; otherwise the config's `github_token` |
| Config.Validation | scripts/config.py:136-152 | succeeds (with true) iff repositories are configured, at least one parses and a token is found; the first failing check decides the error: no repositories, then no valid repository, then no token |
| Config.ConfigManager.constructor | scripts/config.py:32-46 | both caches start empty |
| Config.ConfigManager.LoadConfig | scripts/config.py:48-65 | returns the loaded document or the file error; once cached, the config is never re-read |
| Config.ConfigManager.GetRepositories | scripts/config.py:67-92 | a cached list is returned unchanged; otherwise the parse of the loaded entries, which is then cached with the config |
| Config.ConfigManager.GetGithubToken | scripts/config.py:94-107 | the environment token without loading the config, else the config's token with the config cached; a load error leaves the cache empty |
| Config.ConfigManager.ValidateConfig | scripts/config.py:127-152 | a load error is raised as is and both caches stay empty; otherwise the result of the check sequence, with the config cached and, once repositories are configured, the parsed list cached |
| GitHubApiClient.RateLimitPauseMs | scripts/github_api.py:149-156 | waits iff remaining < 10, the reset is set and non-zero and lies ahead; then until one second past the reset |
| GitHubApiClient.SpacingMs | scripts/github_api.py:84-87 | waits iff less than 100 ms have passed since the last request, and exactly until 100 ms have |
| GitHubApiClient.UpdateRateLimitInfo | scripts/github_api.py:158-165 | remaining always set (5000 without the header); reset only when its header is present; nothing else changes |
| GitHubApiClient.RateLimitWaitMs | scripts/github_api.py:167-177 | with a reset header, exactly until one second past it, or no wait once that moment has passed; else 60 s |
| GitHubApiClient.BackoffMs | scripts/github_api.py:121 | between `2**attempt` seconds and one second more |
| GitHubApiClient.AttemptsBounded | scripts/github_api.py:78-147 | a run issues at least one and at most `max_retries + 1` requests |
| GitHubApiClient.RetryableStepRetries | scripts/github_api.py:99-145 | a 5xx, a network error or a rate-limited 403 before the last attempt goes round again |
| GitHubApiClient.FirstTerminalDecides | scripts/github_api.py:96-136 | the first non-retryable response decides the result: 200 gives the body, 403/404/other raise with their status; one request per attempt made |
| GitHubApiClient.AllRetryableEnds | scripts/github_api.py:99-147 | when every attempt is retryable the last one decides: 5xx raises with its status, a network error without one, a rate-limited 403 ends in "failed after retries" |
| GitHubApiClient.BackoffsBounded | scripts/github_api.py:118-145 | every backoff sleep follows an attempt that was not the last and lasts `2**attempt` s plus less than 1 s |
| GitHubApiClient.LowQuotaRequestWaits | scripts/github_api.py:149-156 | with a low quota and a reset ahead, the request goes out no earlier than one second past the reset |
| GitHubApiClient.BeforeRequestHasNoBackoff | scripts/github_api.py:80-87 | the sleeps before a request are never backoffs |
| GitHubApiClient.TwoServerErrorsThenSuccess | scripts/github_api.py:118-124 | two 5xx then a 200: the body is returned after three requests and exactly two backoffs |
| GitHubApiClient.Client.constructor | scripts/github_api.py:70-73 | remaining 5000, no reset, last request at time 0 |
| GitHubApiClient.Client.SleepFor | scripts/github_api.py:123 | `time.sleep` advances the clock and nothing else |
| GitHubApiClient.Client.CheckRateLimit | scripts/github_api.py:149-156 | sleeps exactly the rate-limit pause, if any |
| GitHubApiClient.Client.UpdateRateLimit | scripts/github_api.py:158-165 | the fields become `UpdateRateLimitInfo` of the response |
| GitHubApiClient.Client.HandleRateLimit | scripts/github_api.py:167-177 | sleeps exactly the rate-limit wait |
| GitHubApiClient.Client.PrepareRequest | scripts/github_api.py:80-87 | the rate-limit pause, then the minimum spacing |
| GitHubApiClient.Client.TryOnce | scripts/github_api.py:79-145 | one loop pass: the decision, new state and sleeps are those of `AttemptStep` |
| GitHubApiClient.Client.MakeRequest | scripts/github_api.py:75-147 | result, final state, sleeps and request count are those of `Attempts`, about which the lemmas above hold |
| GitHubCollector.FromApiResponse | scripts/github_api.py:25-34 | each counter is the response's value or 0 when missing; the timestamp is now |
| GitHubCollector.CollectCurrentTrafficData | scripts/github_api.py:223-253 | an API error from either call is re-raised; otherwise the record built from both totals |
| GitHubCollector.LastByDateDomain | scripts/github_api.py:300-305 | a date is in `data_by_date` iff some entry carries it |
| GitHubCollector.LastByDateLatest | scripts/github_api.py:300-305 | a date maps to the last entry carrying it |
| GitHubCollector.LastByDateValues | scripts/github_api.py:300-305 | each mapped entry is an input entry of that date |
| GitHubCollector.DaysFrom | scripts/github_api.py:314-325 | n entries, the i-th the stored entry of start+i days or a zero entry |
| GitHubCollector.WindowOf | scripts/github_api.py:307-327 | the window has 14 entries |
| GitHubCollector.Window | scripts/github_api.py:292-327 | `_fill_missing_days` gives exactly 14 entries |
| GitHubCollector.IndexByDate | scripts/github_api.py:296-305 | fails with `ValueError` iff some timestamp does not parse; otherwise the last entry per date |
| GitHubCollector.WindowWalk | scripts/github_api.py:312-314 | the loop condition `current_date <= end_date` holds for exactly the first 14 steps |
| GitHubCollector.FillWindow | scripts/github_api.py:311-327 | the `while` loop produces the window |
| GitHubCollector.FillMissingDays | scripts/github_api.py:292-327 | `ValueError` iff a timestamp is unreadable; otherwise the 14-day window |
| GitHubCollector.WindowDates | scripts/github_api.py:307-327 | entry i is dated today-13+i: consecutive ascending days ending today |
| GitHubCollector.WindowKeepsLast | scripts/github_api.py:315-317 | a window day with input entries holds the last of them, unchanged |
| GitHubCollector.WindowFillsGaps | scripts/github_api.py:318-324 | a window day without input holds `{T00:00:00Z, count 0, uniques 0}` |
| GitHubCollector.WindowDropsOutside | scripts/github_api.py:301-327 | an entry without a timestamp or dated outside the window never appears |
| GitHubCollector.CollectHistoricalTrafficData | scripts/github_api.py:255-290 | API errors re-raised; `ValueError` iff either series has an unreadable timestamp; otherwise both 14-day windows of the `views`/`clones` lists (empty when missing) |
| GitHubCollector.ReferrerMap | scripts/github_api.py:361-367 | never more names than entries |
| GitHubCollector.ReferrerMapDomain | scripts/github_api.py:363-367 | a name is a key iff some entry has it, `unknown` standing for a missing name |
| GitHubCollector.ReferrerMapLast | scripts/github_api.py:363-367 | a name maps to the count of its last entry, 0 when missing |
| GitHubCollector.CollectReferrersData | scripts/github_api.py:353-375 | the loop builds the referrer map; API errors re-raised |
| GitHubCollector.CollectRepositoryMetadata | scripts/github_api.py:329-351 | stars, forks, watchers, open issues and size, each 0 when missing; API errors re-raised |
| StorageModel.PutDaily | scripts/data_storage.py:53-66 | the day's key in its year holds the new record; every other key of every year is unchanged |
| StorageModel.PutDailyLastWins | scripts/data_storage.py:60-66 | the second of two writes to a day wins outright |
| StorageModel.RepeatChangesOnlyTimestamp | scripts/data_storage.py:60-66 | repeating the same counters changes only that day's timestamp |
| StorageModel.AddCounts | scripts/data_storage.py:128-132 | each incoming referrer gets old count (or 0) plus incoming; others unchanged; no key lost |
| StorageModel.MergeReferrers | scripts/data_storage.py:117-132 | the month's counts are merged additively; other months unchanged |
| StorageModel.MergeTwiceAdds | scripts/data_storage.py:128-132 | two merges into one month add both counts to the stored one |
| StorageModel.ViewsPassKeepsExisting | scripts/data_storage.py:286-287 | the views pass never touches an existing day |
| StorageModel.ViewsPassFirstWins | scripts/data_storage.py:276-296 | a new day gets the views record of its first input entry (clones 0) |
| StorageModel.ViewsPassAbsent | scripts/data_storage.py:276-296 | no input for a day: the views pass creates nothing for it |
| StorageModel.ClonesPassLastWins | scripts/data_storage.py:299-323 | each day ends with the clones counters of its last input entry |
| StorageModel.ClonesPassKeepsViews | scripts/data_storage.py:310-312 | an existing day keeps its views, unique visitors and timestamp |
| StorageModel.ViewsPassNoCreation | scripts/data_storage.py:286-296 | when every input day exists the views pass changes nothing and creates nothing |
| StorageModel.ClonesPassNoCreation | scripts/data_storage.py:310-321 | when every input day exists the clones pass creates nothing |
| StorageModel.OnlyUpdatesReportFalse | scripts/data_storage.py:273-326 | a run that only updates existing days returns False |
| StorageModel.ViewsPassCreates | scripts/data_storage.py:276-296 | with saves working, a views entry for a day missing from the file is counted |
| StorageModel.ClonesPassCreates | scripts/data_storage.py:299-323 | a clones entry for a day missing from the file is counted, whether or not the save works |
| StorageModel.ViewsPassWithoutDisk | scripts/data_storage.py:287-296 | with saves failing the views pass writes nothing and counts nothing |
| StorageModel.HistoricalStoreReportsCreation | scripts/data_storage.py:273-326 | with readable timestamps, True iff a views entry names a day missing from the file (saves working) or a clones entry names a day missing after the views pass |
| StorageModel.UnsavedClonesReportTrue | scripts/data_storage.py:313-326 | a clones entry created while saves fail still counts: True with the file unchanged |
| StorageModel.FailureKeepsEarlierSaves | scripts/data_storage.py:276-330 | an unparsable timestamp returns False after earlier entries were already saved |
| StorageReaders.ParseMonthDay | scripts/data_storage.py:171-172 | an accepted key splits into exactly two parts and gives a valid date of the scanned year |
| StorageReaders.MonthDayKeyAccepted | scripts/data_storage.py:171-172 | an `MM-DD` key is read as that date |
| StorageReaders.WriterKeysRejected | scripts/data_storage.py:171 | every `YYYY-MM-DD` key the writers produce is rejected |
| StorageReaders.AcceptedKeys | scripts/data_storage.py:165-175 | exactly the keys of the scanned years that read as a date in [start, end] |
| StorageReaders.InsertByDate | scripts/data_storage.py:188 | insertion keeps the list sorted by date and is a permutation of old list plus the new metric |
| StorageReaders.ScanYear | scripts/data_storage.py:166-185 | after a year the metrics are those of exactly the accepted keys up to that year, one per key as a multiset, sorted |
| StorageReaders.DateRangeMetrics | scripts/data_storage.py:156-189 | the metrics of exactly the accepted keys, one per key as a multiset, sorted by date; malformed keys skipped |
| StorageReaders.PutDailyKeepsDateKeys | scripts/data_storage.py:53-66 | files written by `store_daily_metrics` hold only date keys |
| StorageReaders.WrittenFilesLookEmpty | scripts/data_storage.py:165-185 | on such files every range read is empty |
| StorageReaders.MonthPart | scripts/data_storage.py:198 | a key has a month part iff it splits into exactly two parts |
| StorageReaders.MonthKeyInjective | scripts/data_storage.py:199 | distinct months of a year give distinct month keys |
| StorageReaders.TotalsOfCount | scripts/data_storage.py:214 | `days_count` is the number of keys summed |
| StorageReaders.KeysOfMonth | scripts/data_storage.py:196-199 | the keys of a month are keys of the document |
| StorageReaders.AddKey | scripts/data_storage.py:198-214 | one loop step keeps the aggregation invariant with one more key |
| StorageReaders.MonthlyAggregates | scripts/data_storage.py:191-219 | a month key is present iff that month has a two-part key; its totals are the sums over those keys, missing fields as 0; no other keys |
| StorageReaders.PeakIndex | scripts/data_storage.py:251 | `max` by views: a maximal entry, the first of them |
| StorageReaders.Summarize | scripts/data_storage.py:232-262 | all zeros and no peak for no metrics; else the sums, the count and the first maximal day |
| StorageReaders.PeakAtMostTotal | scripts/data_storage.py:245-262 | with non-negative views the peak count never exceeds the total |
| StorageReaders.DefaultStart | scripts/data_storage.py:227-228 | the default start is the same day one year earlier, an error when that date does not exist |
| StorageReaders.LeapDayHasNoDefaultStart | scripts/data_storage.py:228 | on 29 February without a start the call raises |
| StorageReaders.SummaryStatistics | scripts/data_storage.py:221-267 | fails iff the default start is needed and invalid; otherwise the summary of the range read |
| StorageReaders.CsvLineOneLine | scripts/data_storage.py:342-343 | a data line holds no newline |
| StorageReaders.HeaderOneLine | scripts/data_storage.py:339 | the header holds no newline |
| StorageReaders.CsvTextLines | scripts/data_storage.py:339-345 | the CSV splits into the header and one line per metric |
| StorageReaders.ExportToCsv | scripts/data_storage.py:332-345 | the CSV of the range read (default from 2020-01-01); one more line than accepted keys |
| DataStorage.AnalyticsDataStorage.constructor | scripts/data_storage.py:42-46 | all files start empty |
| DataStorage.AnalyticsDataStorage.StoreDailyMetrics | scripts/data_storage.py:48-80 | returns the save result; on success the daily file is `PutDaily` of the record; other files unchanged |
| DataStorage.AnalyticsDataStorage.StoreRepositoryMetadata | scripts/data_storage.py:82-111 | stores the counters under today's date key with a timestamp; True iff saved and `stars`/`forks` present |
| DataStorage.AnalyticsDataStorage.StoreReferrersData | scripts/data_storage.py:113-146 | merges into the given month, the current one by default; returns the save result |
| DataStorage.AnalyticsDataStorage.StoreHistoricalData | scripts/data_storage.py:269-330 | file and result are those of `HistoricalStore`; other files unchanged |
| DataStorage.AddReferrerCounts | scripts/data_storage.py:128-132 | the merge loop computes `AddCounts` |
| DataStorage.StoreViews | scripts/data_storage.py:276-296 | the views loop computes the views pass |
| DataStorage.StoreClones | scripts/data_storage.py:299-323 | the clones loop computes the clones pass |
| CollectData.RunSucceeds | scripts/collect_data.py:50-96 | True iff traffic fetched and stored and no requested history failed to read |
| CollectData.UpdatedIffSucceeded | scripts/collect_data.py:85-89 | on success `update_last_updated` is called once, last; on failure never |
| CollectData.ReferrersStoredIffNonEmpty | scripts/collect_data.py:66-73 | referrers stored iff the run got past the daily store and the fetch gave a non-empty map |
| CollectData.HistoryFetchedAndStored | scripts/collect_data.py:75-83 | history fetched iff requested past the daily store; stored iff a series is non-empty |
| CollectData.Upsert | scripts/collect_data.py:118 | `results[k] = v`: an existing key keeps its place, a new one goes last |
| CollectData.UpsertKeys | scripts/collect_data.py:118 | keys stay distinct, gain k, and k maps to v |
| CollectData.CollectedKeys | scripts/collect_data.py:108-127 | one result per distinct `owner/name` among the repositories, no other |
| CollectData.CollectedInOrder | scripts/collect_data.py:108-127 | with distinct names: one result per repository, in order, each its run's result, history iff flag or never updated |
| CollectData.DuplicateKeepsFirstPlace | scripts/collect_data.py:118 | a repeated repository keeps its first place and its last result |
| CollectData.ReportPartitions | scripts/collect_data.py:167-180 | successful and failed lists split the results by outcome; counts sum to the total |
| CollectData.NoneFailed | scripts/collect_data.py:170 | the failed list is empty iff every result is True |
| CollectData.ReportDisjoint | scripts/collect_data.py:169-170 | with distinct keys no repository is both successful and failed |
| CollectData.ExitCode | scripts/collect_data.py:207-272 | every path exits with 0 or 1; a missing or empty token exits 1, then an invalid configuration exits 1, then `--validate-only` exits 0 |
| CollectData.AllModeExit | scripts/collect_data.py:248-265 | the all-repositories mode exits 0 iff no repository failed |
| CollectData.SingleModeExit | scripts/collect_data.py:231-245 | the single mode exits 0 iff the argument is `owner/name`, configured, enabled, and its run succeeded |
| CollectData.DataCollectionOrchestrator.constructor | scripts/collect_data.py:26-40 | no call made yet |
| CollectData.DataCollectionOrchestrator.CollectRepositoryData | scripts/collect_data.py:42-96 | result and calls made are those of `RepositoryRun` |
| CollectData.DataCollectionOrchestrator.FetchAndStoreReferrers | scripts/collect_data.py:66-73 | fetch, then store only a non-empty map |
| CollectData.DataCollectionOrchestrator.FetchAndStoreHistory | scripts/collect_data.py:75-89 | fetch; a read failure ends the run; a non-empty series is stored; then the update |
| CollectData.DataCollectionOrchestrator.CollectNext | scripts/collect_data.py:109-127 | one loop turn extends results and calls by the next repository's run |
| CollectData.DataCollectionOrchestrator.CollectAllRepositories | scripts/collect_data.py:98-134 | results and calls are those of `Collected`, an empty dictionary for no repositories |

## Left out

- HTTP transport: the session, headers, timeouts and `response.json()`. A response is a status, a "rate limit" text flag, the two headers and an abstract body.
- Real time: `time.time()`, `time.sleep` and `datetime.now`. They are a millisecond clock and `today`/`now` parameters. The jitter `time.time() % 1` is `clock % 1000` milliseconds.
- Floating-point results: `average_daily_views`, `average_daily_visitors` and `success_rate`.
- File I/O: `safe_json_load`/`safe_json_save`, the path getters and `ensure_directory`. The `save_*` and `load_referrers_data` helpers are not part of this model, since scripts/utils.py does not define them. Files are in-memory maps, and one `diskOk` flag per store call stands for all its saves.
- Logging, `setup_logging`, `argparse`, and the `__main__` blocks.
- `cleanup_old_data` (a no-op), `generate_dashboard_data`, `validate_configuration` (a network probe), `test_authentication`, the thin `get_*` API wrappers and `collect_all_repository_data`.
- `get_enabled_repositories`, `get_repository`, `update_last_updated` and the `last_updated` field are not part of this model. The orchestrator records calls to them. Their results are inputs: an `EnabledRepo` list, a lookup map, and outcomes per repository. `update_last_updated` is taken not to raise.
- `int()` on a key part: only ASCII digits, optionally after one leading `+`, parse. Surrounding whitespace, underscores between digits and non-ASCII digits, which Python also accepts, are not modelled (a `-` never reaches `int()`, since the key is split at `-`).
- JSON fields are typed, and a `null` field is treated as absent. Python's `get(key, default)` returns `None` for a present `null`: an object entry with `"enabled": null` yields a disabled repository where `Config.EntryRepository` enables it, and a daily record with `"views": null` yields `None` where `StorageReaders.MetricOf` reads 0.
- StorageReaders.DateRangeMetrics: among metrics with equal dates the order is left open, because Python's stable sort follows the dictionary's iteration order. Sortedness and the multiset of metrics (one per accepted key) are stated.
- GitHubApiClient.BackoffMs: the jitter is whole milliseconds, not a real fraction of a second.
- Dates are civil dates (year, month, day) with one-day steps, not Python `date` objects. A window reaching outside years 1 to 9999 (where Python raises) is excluded by a precondition.
- Timestamps from the API are `Absent`, `Unparsable` or a date. Time zones and the time part of `fromisoformat` are not modelled.
- Metadata counters other than the five extracted fields, and the JSON shape of the metadata file: a record is a counter map and a timestamp.
- The orchestrator's constructor does not model building the API client, whose failure would raise.
