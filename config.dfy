/** scripts/config.py: the repository record, the parsing of the
    heterogeneous `repositories` list, the token lookup and the ordered
    checks of `validate_config`, with the `_config` and `_repositories`
    caches of `ConfigManager`. */
module Config {
  import opened Wrappers
  import opened Strings
  import Utils

  datatype Repository = Repository(owner: string, name: string, enabled: bool)

  /** `Repository.full_name`. */
  function FullName(r: Repository): string {
    r.owner + "/" + r.name
  }

  /** `full_name` and `parse_repository_string` are inverse to each other on
      repositories whose owner holds no `/` and whose parts are non-empty. */
  lemma FullNameRoundTrip(r: Repository)
    requires r.owner != "" && r.name != "" && '/' !in r.owner
    ensures Utils.ParseRepositoryString(FullName(r)) == Success((r.owner, r.name))
  {
    Utils.ParseJoined(r.owner, r.name);
  }

  /** One element of the configured `repositories` list: a string, an object,
      or anything else. In an object, `None` stands for a missing key and
      `Some(s)` for a string value, so an empty string is `Some("")`. */
  datatype RepoEntry =
    | Text(text: string)
    | Object(owner: Option<string>, name: Option<string>, enabled: Option<bool>)
    | OtherValue

  datatype ConfigDoc = ConfigDoc(repositories: Option<seq<RepoEntry>>, githubToken: Option<string>)

  /** The configuration file as `load_config` finds it. */
  datatype ConfigFile = Missing | InvalidJson | Present(doc: ConfigDoc)

  datatype ConfigError =
    | FileNotFound            // FileNotFoundError from load_config
    | JsonDecodeError         // json.JSONDecodeError from load_config
    | NoRepositoriesConfigured
    | NoValidRepositories
    | TokenNotFound

  predicate Truthy(s: Option<string>) { s.Some? && s.value != "" }

  /** `config.get('repositories', [])`. */
  function Entries(doc: ConfigDoc): seq<RepoEntry> {
    doc.repositories.GetOr([])
  }

  /** The decision `get_repositories` makes for one entry. A string is split at
      its first `/` (empty parts are not rejected here); an object needs a
      truthy owner and name, and `enabled` defaults to true. */
  function EntryRepository(e: RepoEntry): (r: Option<Repository>)
    ensures e.Text? ==> (r.Some? <==> '/' in e.text)
    ensures e.Text? && r.Some? ==> FullName(r.value) == e.text && r.value.enabled && '/' !in r.value.owner
    ensures e.Object? ==> (r.Some? <==> Truthy(e.owner) && Truthy(e.name))
    ensures e.Object? && r.Some? ==>
      r.value == Repository(e.owner.value, e.name.value, e.enabled.GetOr(true))
    ensures e.OtherValue? ==> r.None?
  {
    match e
    case Text(s) =>
      (match FirstIndex(s, '/')
       case None => None
       case Some(i) =>
         assert s[..i] + "/" + s[i + 1..] == s;
         Some(Repository(s[..i], s[i + 1..], true)))
    case Object(owner, name, enabled) =>
      if Truthy(owner) && Truthy(name) then Some(Repository(owner.value, name.value, enabled.GetOr(true)))
      else None
    case OtherValue => None
  }

  /** The list `get_repositories` builds: the accepted entries, in order. */
  function ParseRepositories(entries: seq<RepoEntry>): (r: seq<Repository>)
    ensures |r| <= |entries|
    decreases |entries|
  {
    if entries == [] then []
    else
      var prefix := ParseRepositories(entries[..|entries| - 1]);
      match EntryRepository(entries[|entries| - 1])
      case Some(rep) => prefix + [rep]
      case None => prefix
  }

  /** Parsing distributes over concatenation: the output keeps config order. */
  lemma {:induction false} ParseRepositoriesAppend(a: seq<RepoEntry>, b: seq<RepoEntry>)
    ensures ParseRepositories(a + b) == ParseRepositories(a) + ParseRepositories(b)
    decreases |b|
  {
    if b == [] {
      assert a + b == a;
    } else {
      var b' := b[..|b| - 1];
      assert (a + b)[..|a + b| - 1] == a + b';
      ParseRepositoriesAppend(a, b');
    }
  }

  /** A repository is in the list exactly when some entry yields it. */
  lemma {:induction false} ParseRepositoriesMembers(entries: seq<RepoEntry>, rep: Repository)
    ensures rep in ParseRepositories(entries) <==>
      exists i :: 0 <= i < |entries| && EntryRepository(entries[i]) == Some(rep)
    decreases |entries|
  {
    if entries != [] {
      var init := entries[..|entries| - 1];
      ParseRepositoriesMembers(init, rep);
      if exists i :: 0 <= i < |init| && EntryRepository(init[i]) == Some(rep) {
        var i :| 0 <= i < |init| && EntryRepository(init[i]) == Some(rep);
        assert entries[i] == init[i];
      }
      if exists i :: 0 <= i < |entries| && EntryRepository(entries[i]) == Some(rep) {
        var i :| 0 <= i < |entries| && EntryRepository(entries[i]) == Some(rep);
        if i < |init| {
          assert init[i] == entries[i];
        }
      }
    }
  }

  /** The string form does not reject an empty owner, unlike
      `parse_repository_string`. */
  lemma TextEntryKeepsEmptyOwner()
    ensures EntryRepository(Text("/x")) == Some(Repository("", "x", true))
    ensures Utils.ParseRepositoryString("/x").Failure?
  {
    assert FirstIndex("/x", '/') == Some(0);
    assert "/x"[..0] == "" && "/x"[1..] == "x";
  }

  /** `get_github_token` once the configuration is at hand: a non-empty
      environment token wins over the configured one. */
  function TokenFrom(env: Option<string>, doc: ConfigDoc): (t: Option<string>)
    ensures Truthy(env) ==> t == env
    ensures !Truthy(env) ==> t == doc.githubToken
  {
    if Truthy(env) then env else doc.githubToken
  }

  /** The checks of `validate_config`, in their order. */
  function Validation(doc: ConfigDoc, env: Option<string>): (r: Result<bool, ConfigError>)
    ensures r.Success? <==>
      Entries(doc) != [] && ParseRepositories(Entries(doc)) != [] && Truthy(TokenFrom(env, doc))
    ensures r.Success? ==> r.value
    ensures Entries(doc) == [] ==> r == Failure(NoRepositoriesConfigured)
    ensures Entries(doc) != [] && ParseRepositories(Entries(doc)) == [] ==> r == Failure(NoValidRepositories)
    ensures Entries(doc) != [] && ParseRepositories(Entries(doc)) != [] && !Truthy(TokenFrom(env, doc)) ==>
      r == Failure(TokenNotFound)
  {
    if Entries(doc) == [] then Failure(NoRepositoriesConfigured)
    else if ParseRepositories(Entries(doc)) == [] then Failure(NoValidRepositories)
    else if !Truthy(TokenFrom(env, doc)) then Failure(TokenNotFound)
    else Success(true)
  }

  class ConfigManager {
    /** The configuration file on disk. */
    var file: ConfigFile
    /** `_config`: the parsed configuration, once loaded. */
    var config: Option<ConfigDoc>
    /** `_repositories`: the repository list, once computed. */
    var repositories: Option<seq<Repository>>

    ghost predicate Valid()
      reads this
    {
      repositories.Some? ==>
        config.Some? && repositories.value == ParseRepositories(Entries(config.value))
    }

    /** What `load_config` returns in the current state. */
    function Loaded(): (r: Result<ConfigDoc, ConfigError>)
      reads this
    {
      if config.Some? then Success(config.value)
      else match file
        case Missing => Failure(FileNotFound)
        case InvalidJson => Failure(JsonDecodeError)
        case Present(doc) => Success(doc)
    }

    constructor (file: ConfigFile)
      ensures Valid() && this.file == file && config == None && repositories == None
    {
      this.file := file;
      config := None;
      repositories := None;
    }

    /** `load_config`: reads the file once and caches it. */
    method LoadConfig() returns (r: Result<ConfigDoc, ConfigError>)
      requires Valid()
      modifies this`config
      ensures Valid()
      ensures r == old(Loaded())
      ensures config == (if r.Success? then Some(r.value) else None)
      ensures old(config).Some? ==> config == old(config)
    {
      if config.None? {
        match file
        case Missing => return Failure(FileNotFound);
        case InvalidJson => return Failure(JsonDecodeError);
        case Present(doc) => config := Some(doc);
      }
      r := Success(config.value);
    }

    /** `get_repositories`: computed once from the loaded configuration, then
        returned from the cache. */
    method GetRepositories() returns (r: Result<seq<Repository>, ConfigError>)
      requires Valid()
      modifies this`config, this`repositories
      ensures Valid()
      ensures old(repositories).Some? ==>
        r == Success(old(repositories).value) && config == old(config) && repositories == old(repositories)
      ensures old(repositories).None? ==>
        match old(Loaded())
        case Failure(e) => r == Failure(e) && config == None && repositories == None
        case Success(doc) =>
          r == Success(ParseRepositories(Entries(doc))) && config == Some(doc) && repositories == Some(r.value)
    {
      if repositories.Some? {
        return Success(repositories.value);
      }
      var loaded := LoadConfig();
      if loaded.Failure? {
        return Failure(loaded.error);
      }
      var entries := Entries(loaded.value);
      var list: seq<Repository> := [];
      var i := 0;
      while i < |entries|
        invariant 0 <= i <= |entries|
        invariant list == ParseRepositories(entries[..i])
      {
        assert entries[..i + 1][..i] == entries[..i];
        match EntryRepository(entries[i]) {
          case Some(rep) => list := list + [rep];
          case None =>
        }
        i := i + 1;
      }
      assert entries[..i] == entries;
      repositories := Some(list);
      r := Success(list);
    }

    /** `get_github_token`: the environment first, then the configuration
        (loading it, which may fail). */
    method GetGithubToken(env: Option<string>) returns (r: Result<Option<string>, ConfigError>)
      requires Valid()
      modifies this`config
      ensures Valid()
      ensures Truthy(env) ==> r == Success(env) && config == old(config)
      ensures !Truthy(env) ==>
        match old(Loaded())
        case Failure(e) => r == Failure(e) && config == old(config)
        case Success(doc) => r == Success(doc.githubToken) && config == Some(doc)
    {
      if Truthy(env) {
        return Success(env);
      }
      var loaded := LoadConfig();
      if loaded.Failure? {
        return Failure(loaded.error);
      }
      r := Success(loaded.value.githubToken);
    }

    /** `validate_config`: raises the first failing check, else returns true. */
    method ValidateConfig(env: Option<string>) returns (r: Result<bool, ConfigError>)
      requires Valid()
      modifies this`config, this`repositories
      ensures Valid()
      ensures match old(Loaded())
        case Failure(e) => r == Failure(e) && config == None && repositories == old(repositories)
        case Success(doc) =>
          r == Validation(doc, env) && config == Some(doc) &&
          repositories == (if Entries(doc) != [] then Some(ParseRepositories(Entries(doc))) else old(repositories))
    {
      var loaded := LoadConfig();
      if loaded.Failure? {
        return Failure(loaded.error);
      }
      var doc := loaded.value;
      if Entries(doc) == [] {
        return Failure(NoRepositoriesConfigured);
      }
      var repos := GetRepositories();
      // the configuration is cached by now, so neither call below can fail to load it
      assert repos.Success?;
      if repos.value == [] {
        return Failure(NoValidRepositories);
      }
      var token := GetGithubToken(env);
      assert token.Success?;
      if !Truthy(token.value) {
        return Failure(TokenNotFound);
      }
      r := Success(true);
    }
  }
}
