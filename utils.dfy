/** The pure helpers of scripts/utils.py: repository-string parsing,
    truncation, the date and month key formatters, dictionary lookup with a
    default, and the year selection of `DataFileManager.load_daily_data`. */
module Utils {
  import opened Wrappers
  import opened Strings
  import opened Calendar

  datatype RepoStringError = InvalidRepositoryFormat(input: string)

  /** `parse_repository_string`: split at the first `/`; both sides must be
      non-empty, otherwise `ValueError`. */
  function ParseRepositoryString(s: string): (r: Result<(string, string), RepoStringError>)
    ensures r.Failure? ==> r.error == InvalidRepositoryFormat(s)
    ensures r.Success? ==>
      var (owner, name) := r.value;
      owner + "/" + name == s && owner != "" && name != "" && '/' !in owner
  {
    match FirstIndex(s, '/')
    case None => Failure(InvalidRepositoryFormat(s))
    case Some(i) =>
      var owner, name := s[..i], s[i + 1..];
      if owner == "" || name == "" then Failure(InvalidRepositoryFormat(s))
      else
        assert owner + "/" + name == s;
        Success((owner, name))
  }

  /** The converse: every `owner/name` whose owner has no `/` and whose parts
      are non-empty parses back into exactly those parts. */
  lemma ParseJoined(owner: string, name: string)
    requires owner != "" && name != "" && '/' !in owner
    ensures ParseRepositoryString(owner + "/" + name) == Success((owner, name))
  {
    var s := owner + "/" + name;
    assert s[|owner|] == '/' && s[..|owner|] == owner;
    var i := FirstIndex(s, '/');
    assert i.Some?;
    assert forall k :: 0 <= k < |owner| ==> s[k] == owner[k] && owner[k] != '/';
    assert i.value == |owner|;
    assert s[|owner| + 1..] == name;
  }

  /** Python's `s[:k]` for any integer `k` (a negative `k` counts from the end). */
  function SliceTo(s: string, k: int): (r: string)
    ensures |r| <= |s| && r == s[..|r|]
    ensures 0 <= k <= |s| ==> |r| == k
    ensures k < 0 ==> |r| == (if |s| + k >= 0 then |s| + k else 0)
    ensures k > |s| ==> r == s
  {
    if k >= 0 then (if k <= |s| then s[..k] else s)
    else if |s| + k >= 0 then s[..|s| + k]
    else []
  }

  /** `truncate_string`: unchanged when it fits, otherwise cut and suffixed
      with "...". */
  function TruncateString(text: string, maxLength: int): (r: string)
    ensures |text| <= maxLength ==> r == text
    ensures |text| > maxLength ==>
      |r| >= 3 && |r| - 3 <= |text| &&
      r[|r| - 3..] == "..." && r[..|r| - 3] == text[..|r| - 3]
    ensures |text| > maxLength && maxLength >= 3 ==>
      |r| == maxLength && r[..maxLength - 3] == text[..maxLength - 3]
    ensures |text| > maxLength && maxLength < 3 ==>
      |r| == 3 + (if |text| + maxLength >= 3 then |text| + maxLength - 3 else 0)
  {
    if |text| <= maxLength then text
    else
      var kept := SliceTo(text, maxLength - 3);
      assert (kept + "...")[..|kept|] == kept;
      kept + "..."
  }

  /** `format_date_for_data_key`: `strftime('%Y-%m-%d')`. The year is written
      as `str(year)` (four digits for the years 1000 to 9999). */
  function FormatDateKey(d: Date): (r: string)
    requires PyDate(d)
    ensures 1000 <= d.year ==> |r| == 10
  {
    DecFourDigits(d.year);
    Dec(d.year) + "-" + Pad2(d.month) + "-" + Pad2(d.day)
  }

  /** `format_month_for_data_key`: `strftime('%Y-%m')`, the first part of the
      day key of any day of that month. */
  function FormatMonthKey(d: Date): (r: string)
    requires PyDate(d)
    ensures |FormatDateKey(d)| == |r| + 3 && r == FormatDateKey(d)[..|r|]
    ensures FormatDateKey(d)[|r|] == '-'
  {
    var r := Dec(d.year) + "-" + Pad2(d.month);
    assert FormatDateKey(d) == r + "-" + Pad2(d.day);
    r
  }

  lemma DecFourDigits(n: nat)
    ensures 1000 <= n <= 9999 ==> |Dec(n)| == 4
  {
    if 1000 <= n <= 9999 {
      assert |Dec(n / 1000)| == 1;
      assert |Dec(n / 100)| == 2;
      assert |Dec(n / 10)| == 3;
    }
  }

  lemma NoDashInDigits(s: string)
    requires AllDigits(s)
    ensures '-' !in s
  {
    assert forall i :: 0 <= i < |s| ==> s[i] != '-';
  }

  /** The date key splits on `-` into three parts: year, month, day. */
  lemma DateKeyParts(d: Date)
    requires PyDate(d)
    ensures Split(FormatDateKey(d), '-') == [Dec(d.year), Pad2(d.month), Pad2(d.day)]
  {
    var y, m, dd := Dec(d.year), Pad2(d.month), Pad2(d.day);
    NoDashInDigits(y);
    NoDashInDigits(m);
    NoDashInDigits(dd);
    assert FormatDateKey(d) == y + ['-'] + (m + ['-'] + dd);
    SplitAfter(y, '-', m + ['-'] + dd);
    SplitAfter(m, '-', dd);
    SplitWithout(dd, '-');
  }

  /** The inverse of `FormatDateKey`: a `YYYY-MM-DD` key back to its date. */
  function ParseDateKey(key: string): (r: Option<Date>)
    ensures r.Some? ==> PyDate(r.value)
  {
    var parts := Split(key, '-');
    if |parts| != 3 then None
    else match (ParseInt(parts[0]), ParseInt(parts[1]), ParseInt(parts[2]))
      case (Some(y), Some(m), Some(dd)) =>
        if PyDate(Date(y, m, dd)) then Some(Date(y, m, dd)) else None
      case _ => None
  }

  lemma DateKeyRoundTrip(d: Date)
    requires PyDate(d)
    ensures ParseDateKey(FormatDateKey(d)) == Some(d)
  {
    DateKeyParts(d);
    DecRoundTrip(d.year);
    Pad2RoundTrip(d.month);
    Pad2RoundTrip(d.day);
  }

  /** Distinct days never share a key, so a year document holds at most one
      entry per day. */
  lemma DateKeyInjective(a: Date, b: Date)
    requires PyDate(a) && PyDate(b) && FormatDateKey(a) == FormatDateKey(b)
    ensures a == b
  {
    DateKeyRoundTrip(a);
    DateKeyRoundTrip(b);
  }

  /** `safe_get`: the stored value when the key is present, else the default. */
  function SafeGet<K, V>(m: map<K, V>, key: K, default: V): (r: V)
    ensures key in m ==> r == m[key]
    ensures key !in m ==> r == default
  {
    if key in m then m[key] else default
  }

  /** The year selection in `load_daily_data`: the sub-document stored under
      the year (JSON key `str(year)`), or an empty document. */
  function LoadDailyData<R>(file: map<int, map<string, R>>, year: int): (r: map<string, R>)
    ensures year in file ==> r == file[year]
    ensures year !in file ==> r == map[]
  {
    SafeGet(file, year, map[])
  }
}
