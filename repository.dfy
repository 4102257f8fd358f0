/** The repository list of packages/getter-config/src/repository.rs: a
    vector of repositories kept in descending priority order by a stable
    sort, and the manager that adds, removes, enables and re-prioritises
    them and looks up which repositories hold an app or hub file. */
module Repository {
  import opened Wrappers
  import opened JsonValues
  import opened FileSystem

  datatype Repo = Repo(
    name: string,
    url: Option<string>,
    path: string,
    priority: int,
    enabled: bool,
    metadata: map<string, string>)

  const MainRepoUrl: string :=
    "https://raw.githubusercontent.com/DUpdateSystem/getter/master/cloud_config.json"

  /** `data_path/repos/<name>`, relative to the data directory. */
  function RepoPath(name: string): string {
    "repos/" + name
  }

  /** The repository `init_default_repositories` adds first. */
  function MainRepo(): Repo {
    Repo("getter-main", Some(MainRepoUrl), RepoPath("getter-main"), 0, true, map[])
  }

  /** The repository `init_default_repositories` adds second. */
  function LocalRepo(): Repo {
    Repo("local", None, RepoPath("local"), 100, true, map[])
  }

  // ---------------------------------------------------------------------
  // Ordering by priority

  predicate SortedByPriority(s: seq<Repo>) {
    forall i, j :: 0 <= i < j < |s| ==> s[i].priority >= s[j].priority
  }

  /** The repositories of priority `p`, in list order. */
  function WithPriority(s: seq<Repo>, p: int): seq<Repo>
    decreases |s|
  {
    if |s| == 0 then []
    else WithPriority(s[..|s| - 1], p) + (if s[|s| - 1].priority == p then [s[|s| - 1]] else [])
  }

  /** Puts `r` after every entry of `s` whose priority is at least its own. */
  function Insert(s: seq<Repo>, r: Repo): seq<Repo>
    decreases |s|
  {
    if |s| == 0 || s[|s| - 1].priority >= r.priority then s + [r]
    else Insert(s[..|s| - 1], r) + [s[|s| - 1]]
  }

  /** `sort_by(|a, b| b.priority.cmp(&a.priority))`: Rust's `sort_by` is
      stable, so this is the unique descending order in which entries of
      equal priority keep their relative order. */
  function StableSort(s: seq<Repo>): seq<Repo>
    decreases |s|
  {
    if |s| == 0 then [] else Insert(StableSort(s[..|s| - 1]), s[|s| - 1])
  }

  lemma {:induction false} InsertPermutes(s: seq<Repo>, r: Repo)
    ensures multiset(Insert(s, r)) == multiset(s) + multiset{r}
    decreases |s|
  {
    if !(|s| == 0 || s[|s| - 1].priority >= r.priority) {
      InsertPermutes(s[..|s| - 1], r);
      assert s == s[..|s| - 1] + [s[|s| - 1]];
    }
  }

  lemma {:induction false} InsertSorted(s: seq<Repo>, r: Repo)
    requires SortedByPriority(s)
    ensures SortedByPriority(Insert(s, r))
    decreases |s|
  {
    if !(|s| == 0 || s[|s| - 1].priority >= r.priority) {
      var init := s[..|s| - 1];
      var last := s[|s| - 1];
      InsertSorted(init, r);
      InsertPermutes(init, r);
      var t := Insert(init, r);
      forall i | 0 <= i < |t|
        ensures t[i].priority >= last.priority
      {
        assert t[i] in multiset(t);
        assert t[i] in multiset(init) || t[i] == r;
      }
    }
  }

  lemma {:induction false} InsertStable(s: seq<Repo>, r: Repo, p: int)
    ensures WithPriority(Insert(s, r), p) == WithPriority(s + [r], p)
    decreases |s|
  {
    if |s| == 0 || s[|s| - 1].priority >= r.priority {
    } else {
      var init := s[..|s| - 1];
      var last := s[|s| - 1];
      InsertStable(init, r, p);
      assert (s + [r])[..|s|] == s;
      assert s == init + [last];
      assert WithPriority(Insert(init, r) + [last], p)
          == WithPriority(Insert(init, r), p) + (if last.priority == p then [last] else []);
      assert WithPriority(init + [r], p) == WithPriority(init, p) + (if r.priority == p then [r] else []);
      assert (init + [r])[..|init|] == init;
    }
  }

  /** The stable sort yields a descending order ... */
  lemma {:induction false} SortSorted(s: seq<Repo>)
    ensures SortedByPriority(StableSort(s))
    decreases |s|
  {
    if |s| > 0 {
      SortSorted(s[..|s| - 1]);
      InsertSorted(StableSort(s[..|s| - 1]), s[|s| - 1]);
    }
  }

  /** ... of the same repositories ... */
  lemma {:induction false} SortPermutes(s: seq<Repo>)
    ensures multiset(StableSort(s)) == multiset(s)
    ensures |StableSort(s)| == |s|
    decreases |s|
  {
    if |s| > 0 {
      SortPermutes(s[..|s| - 1]);
      InsertPermutes(StableSort(s[..|s| - 1]), s[|s| - 1]);
      assert s == s[..|s| - 1] + [s[|s| - 1]];
    }
  }

  /** ... in which repositories of equal priority keep their relative order. */
  lemma {:induction false} SortStable(s: seq<Repo>, p: int)
    ensures WithPriority(StableSort(s), p) == WithPriority(s, p)
    decreases |s|
  {
    if |s| > 0 {
      var init := s[..|s| - 1];
      SortStable(init, p);
      InsertStable(StableSort(init), s[|s| - 1], p);
      assert WithPriority(StableSort(init) + [s[|s| - 1]], p)
          == WithPriority(StableSort(init), p) + (if s[|s| - 1].priority == p then [s[|s| - 1]] else []);
      assert (StableSort(init) + [s[|s| - 1]])[..|StableSort(init)|] == StableSort(init);
    }
  }

  /** Sorting a list that is already in order changes nothing. */
  lemma {:induction false} SortOfSorted(s: seq<Repo>)
    requires SortedByPriority(s)
    ensures StableSort(s) == s
    decreases |s|
  {
    if |s| > 0 {
      var init := s[..|s| - 1];
      assert SortedByPriority(init);
      SortOfSorted(init);
      assert s == init + [s[|s| - 1]];
    }
  }

  /** On an ordered list, push-then-sort inserts the new repository after
      all repositories of greater or equal priority. */
  lemma AddToSorted(s: seq<Repo>, r: Repo)
    requires SortedByPriority(s)
    ensures StableSort(s + [r]) == Insert(s, r)
  {
    assert (s + [r])[..|s|] == s;
    SortOfSorted(s);
  }

  // ---------------------------------------------------------------------
  // Lookups

  /** `iter().position(|r| r.name == name)`. */
  function FirstNamed(s: seq<Repo>, name: string): (r: Option<nat>)
    ensures r.Some? ==> r.value < |s| && s[r.value].name == name
    ensures r.Some? ==> forall j :: 0 <= j < r.value ==> s[j].name != name
    ensures r.None? ==> forall j :: 0 <= j < |s| ==> s[j].name != name
    decreases |s|
  {
    if |s| == 0 then None
    else if s[0].name == name then Some(0)
    else match FirstNamed(s[1..], name)
      case None => None
      case Some(i) => Some(i + 1)
  }

  /** `iter().filter(|r| r.enabled)`, in list order. */
  function EnabledOnly(s: seq<Repo>): (r: seq<Repo>)
    ensures forall x :: x in r <==> x in s && x.enabled
    ensures |r| <= |s|
    decreases |s|
  {
    if |s| == 0 then []
    else EnabledOnly(s[..|s| - 1]) + (if s[|s| - 1].enabled then [s[|s| - 1]] else [])
  }

  /** The filter distributes over concatenation, so it keeps list order. */
  lemma {:induction false} EnabledOnlyAppend(a: seq<Repo>, b: seq<Repo>)
    ensures EnabledOnly(a + b) == EnabledOnly(a) + EnabledOnly(b)
    decreases |b|
  {
    if |b| == 0 {
      assert a + b == a;
    } else {
      var b0 := b[..|b| - 1];
      var x := b[|b| - 1];
      EnabledOnlyAppend(a, b0);
      var tail := if x.enabled then [x] else [];
      assert EnabledOnly(a + b) == EnabledOnly(a + b0) + tail by {
        assert (a + b)[..|a + b| - 1] == a + b0;
        assert (a + b)[|a + b| - 1] == x;
      }
      assert EnabledOnly(b) == EnabledOnly(b0) + tail;
      AppendAssoc(EnabledOnly(a), EnabledOnly(b0), tail);
    }
  }

  lemma AppendAssoc<T>(x: seq<T>, y: seq<T>, z: seq<T>)
    ensures x + y + z == x + (y + z)
  {
  }

  /** For each repository in order, its `(name, <path>/<kind>/<id>.json)`
      when that file exists. */
  function Locate(repos: seq<Repo>, files: map<FileKey, Json>, kind: Kind, id: string)
    : (found: seq<(string, FileKey)>)
    ensures forall x :: x in found ==> x.1 in files && x.1.kind == kind && x.1.id == id
    ensures forall x :: x in found ==> exists r :: r in repos && r.name == x.0 && r.path == x.1.dir
    ensures forall r :: r in repos && FileKey(r.path, kind, id) in files ==>
              (r.name, FileKey(r.path, kind, id)) in found
    ensures |found| <= |repos|
    decreases |repos|
  {
    if |repos| == 0 then []
    else
      var last := repos[|repos| - 1];
      var key := FileKey(last.path, kind, id);
      Locate(repos[..|repos| - 1], files, kind, id) + (if key in files then [(last.name, key)] else [])
  }

  /** Locating in one more repository of a list. */
  lemma LocateStep(repos: seq<Repo>, files: map<FileKey, Json>, kind: Kind, id: string, i: nat)
    requires i < |repos|
    ensures var key := FileKey(repos[i].path, kind, id);
            Locate(repos[..i + 1], files, kind, id)
            == Locate(repos[..i], files, kind, id) + (if key in files then [(repos[i].name, key)] else [])
  {
    assert repos[..i + 1][..i] == repos[..i];
  }

  /** Adding getter-main and then local to an empty list leaves local first. */
  lemma DefaultOrder()
    ensures StableSort(StableSort([] + [MainRepo()]) + [LocalRepo()]) == [LocalRepo(), MainRepo()]
  {
    var main, local := MainRepo(), LocalRepo();
    assert StableSort([] + [main]) == [main] by {
      assert [] + [main] == [main];
      assert [main][..0] == [];
    }
    AddToSorted([main], local);
    assert Insert([main], local) == [local, main] by {
      assert [main][..0] == [];
    }
  }

  /** After the defaults, adding "custom" at priority 50 places it between
      local (100) and getter-main (0). */
  lemma CustomBetweenDefaults(custom: Repo)
    requires custom.priority == 50
    ensures StableSort([LocalRepo(), MainRepo()] + [custom]) == [LocalRepo(), custom, MainRepo()]
  {
    var s := [LocalRepo(), MainRepo()];
    assert SortedByPriority(s);
    AddToSorted(s, custom);
    assert s[..1] == [LocalRepo()];
    assert [LocalRepo()][..0] == [];
    assert Insert([LocalRepo()], custom) == [LocalRepo(), custom];
    assert Insert(s, custom) == Insert([LocalRepo()], custom) + [MainRepo()];
  }

  class RepositoryConfig {
    var repositories: seq<Repo>

    /** `RepositoryConfig::new()` and, when `repos.conf` was read,
        `RepositoryConfig::load` with its contents. */
    constructor(loaded: seq<Repo>)
      ensures repositories == loaded
    {
      repositories := loaded;
    }

    /** Appends without checking the name, then re-sorts. */
    method AddRepository(repo: Repo)
      modifies this
      ensures repositories == StableSort(old(repositories) + [repo])
      ensures |repositories| == |old(repositories)| + 1
      ensures multiset(repositories) == multiset(old(repositories)) + multiset{repo}
      ensures SortedByPriority(repositories)
      ensures forall p :: WithPriority(repositories, p) == WithPriority(old(repositories) + [repo], p)
    {
      repositories := repositories + [repo];
      SortByPriority();
    }

    /** Removes the first repository of that name. */
    method RemoveRepository(name: string) returns (removed: bool)
      modifies this
      ensures removed <==> exists i :: 0 <= i < |old(repositories)| && old(repositories)[i].name == name
      ensures removed ==> var i := FirstNamed(old(repositories), name).value;
                repositories == old(repositories)[..i] + old(repositories)[i + 1..]
      ensures !removed ==> repositories == old(repositories)
    {
      match FirstNamed(repositories, name)
      case None =>
        removed := false;
      case Some(i) =>
        repositories := repositories[..i] + repositories[i + 1..];
        removed := true;
    }

    /** `iter().find(|r| r.name == name)`. */
    function GetRepository(name: string): (r: Option<Repo>)
      reads this
      ensures r.Some? <==> exists i :: 0 <= i < |repositories| && repositories[i].name == name
      ensures r.Some? ==> r.value in repositories && r.value.name == name
    {
      match FirstNamed(repositories, name)
      case None => None
      case Some(i) => Some(repositories[i])
    }

    method SortByPriority()
      modifies this
      ensures repositories == StableSort(old(repositories))
      ensures |repositories| == |old(repositories)|
      ensures SortedByPriority(repositories)
      ensures multiset(repositories) == multiset(old(repositories))
      ensures forall p :: WithPriority(repositories, p) == WithPriority(old(repositories), p)
    {
      SortSorted(repositories);
      SortPermutes(repositories);
      forall p ensures WithPriority(StableSort(repositories), p) == WithPriority(repositories, p) {
        SortStable(repositories, p);
      }
      repositories := StableSort(repositories);
    }

    function GetEnabledRepositories(): (r: seq<Repo>)
      reads this
      ensures forall x :: x in r <==> x in repositories && x.enabled
    {
      EnabledOnly(repositories)
    }
  }

  class RepositoryManager {
    const config: RepositoryConfig
    const store: FileStore

    /** `RepositoryManager::new`, with the repositories read from `repos.conf`
        (empty when that file does not exist). */
    constructor(store: FileStore, loaded: seq<Repo>)
      ensures fresh(config) && config.repositories == loaded && this.store == store
    {
      config := new RepositoryConfig(loaded);
      this.store := store;
    }

    /** On an empty list, adds getter-main (priority 0) and then local
        (priority 100); otherwise does nothing. */
    method InitDefaultRepositories()
      modifies config
      ensures old(config.repositories) == [] ==> config.repositories == [LocalRepo(), MainRepo()]
      ensures old(config.repositories) != [] ==> config.repositories == old(config.repositories)
    {
      if |config.repositories| == 0 {
        config.AddRepository(MainRepo());
        config.AddRepository(LocalRepo());
        DefaultOrder();
      }
    }

    /** A new enabled repository under `repos/<name>`; names are not checked,
        so the list always grows by one. */
    method AddRepository(name: string, url: Option<string>, priority: int)
      modifies config
      ensures config.repositories
              == StableSort(old(config.repositories) + [Repo(name, url, RepoPath(name), priority, true, map[])])
      ensures |config.repositories| == |old(config.repositories)| + 1
      ensures SortedByPriority(config.repositories)
    {
      config.AddRepository(Repo(name, url, RepoPath(name), priority, true, map[]));
    }

    /** Removes the first repository of that name and, if one was removed,
        deletes everything under `repos/<name>`. */
    method RemoveRepository(name: string) returns (removed: bool)
      modifies config, store
      ensures removed <==> exists i :: 0 <= i < |old(config.repositories)| && old(config.repositories)[i].name == name
      ensures removed ==> var i := FirstNamed(old(config.repositories), name).value;
                config.repositories == old(config.repositories)[..i] + old(config.repositories)[i + 1..]
      ensures !removed ==> config.repositories == old(config.repositories)
      ensures store.files == if removed then WithoutDir(old(store.files), RepoPath(name)) else old(store.files)
    {
      removed := config.RemoveRepository(name);
      if removed {
        store.RemoveDir(RepoPath(name));
      }
    }

    /** Sets the `enabled` flag of the first repository of that name; a
        silent no-op for an unknown name. */
    method EnableRepository(name: string, enabled: bool)
      modifies config
      ensures match FirstNamed(old(config.repositories), name)
              case None => config.repositories == old(config.repositories)
              case Some(i) => config.repositories
                              == old(config.repositories)[i := old(config.repositories)[i].(enabled := enabled)]
    {
      match FirstNamed(config.repositories, name)
      case None =>
      case Some(i) =>
        config.repositories := config.repositories[i := config.repositories[i].(enabled := enabled)];
    }

    /** Sets the priority of the first repository of that name and re-sorts;
        a silent no-op for an unknown name. */
    method SetRepositoryPriority(name: string, priority: int)
      modifies config
      ensures match FirstNamed(old(config.repositories), name)
              case None => config.repositories == old(config.repositories)
              case Some(i) => config.repositories
                              == StableSort(old(config.repositories)[i := old(config.repositories)[i].(priority := priority)])
    {
      match FirstNamed(config.repositories, name)
      case None =>
      case Some(i) =>
        config.repositories := config.repositories[i := config.repositories[i].(priority := priority)];
        config.SortByPriority();
    }

    /** The enabled repositories holding `<path>/apps/<id>.json`, in list
        (descending priority) order. */
    method FindAppInRepositories(id: string) returns (results: seq<(string, FileKey)>)
      ensures results == Locate(EnabledOnly(config.repositories), store.files, Apps, id)
    {
      results := FindIn(Apps, id);
    }

    /** The enabled repositories holding `<path>/hubs/<id>.json`, in list
        (descending priority) order. */
    method FindHubInRepositories(id: string) returns (results: seq<(string, FileKey)>)
      ensures results == Locate(EnabledOnly(config.repositories), store.files, Hubs, id)
    {
      results := FindIn(Hubs, id);
    }

    method FindIn(kind: Kind, id: string) returns (results: seq<(string, FileKey)>)
      ensures results == Locate(EnabledOnly(config.repositories), store.files, kind, id)
    {
      var repos := config.GetEnabledRepositories();
      var files := store.files;
      results := [];
      for i := 0 to |repos|
        invariant results == Locate(repos[..i], files, kind, id)
      {
        var key := FileKey(repos[i].path, kind, id);
        LocateStep(repos, files, kind, id, i);
        if key in files {
          results := results + [(repos[i].name, key)];
        }
      }
      assert repos[..|repos|] == repos;
    }
  }
}
