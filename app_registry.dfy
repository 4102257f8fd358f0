/** packages/getter-config/src/app_registry.rs: app identifiers
    `<app>::<hub>`, the layered resolver that folds the JSON fragments of
    the enabled repositories, the default `repo/` directory and the local
    `config/` overrides with JSON Merge Patch, and the tracked app list. */
module AppRegistry {
  import opened Wrappers
  import opened Strings
  import opened JsonValues
  import opened MergePatch
  import opened FileSystem
  import opened Repository
  import opened Collections

  /** `data_path/repo`: the default repository directory. */
  const RepoDir: string := "repo"
  /** `data_path/config`: the local override layer. */
  const ConfigDir: string := "config"

  // ---------------------------------------------------------------------
  // Identifiers

  datatype AppIdentifier = AppIdentifier(appId: string, hubId: string)

  /** `format!("{}::{}", app_id, hub_id)`: for separable halves, the one
      string that splits on "::" into exactly the two ids. */
  function ToString(id: AppIdentifier): (r: string)
    ensures Separable(id.appId, id.hubId) ==> Split(r, "::") == [id.appId, id.hubId]
  {
    var r := id.appId + "::" + id.hubId;
    if Separable(id.appId, id.hubId) then
      assert "::"[..1] == ":";
      SplitAfterHead(id.appId, "::", id.hubId);
      SplitWithout(id.hubId, "::");
      r
    else r
  }

  /** Splits on "::" and accepts exactly two pieces (either may be empty). */
  function Parse(identifier: string): (r: Result<AppIdentifier>)
    ensures r.Ok? ==> ToString(r.value) == identifier
    ensures r.Err? ==> r.msg == "Invalid identifier format: " + identifier
  {
    var parts := Split(identifier, "::");
    if |parts| != 2 then Err("Invalid identifier format: " + identifier)
    else
      JoinSplit(identifier, "::");
      Ok(AppIdentifier(parts[0], parts[1]))
  }

  /** The two halves are told apart by the first "::": the app id has no
      "::" and does not end in ':', the hub id has no "::". */
  predicate Separable(appId: string, hubId: string) {
    !Contains(appId + ":", "::") && !Contains(hubId, "::")
  }

  /** `parse` accepts exactly the strings made of two separable halves
      around one "::". */
  lemma ParseAccepts(s: string)
    ensures Parse(s).Ok? <==> exists a, h :: s == a + "::" + h && Separable(a, h)
  {
    if Parse(s).Ok? {
      var i := IndexOf(s, "::").value;
      var a, h := s[..i], s[i + 2..];
      assert Split(s, "::") == [a] + Split(h, "::");
      assert !Contains(h, "::");
      assert s == a + "::" + h by {
        assert s[i..i + 2] == "::";
      }
      if Contains(a + ":", "::") {
        var j := IndexOf(a + ":", "::").value;
        assert a + ":" == s[..i + 1] by {
          assert s[i..i + 2] == "::";
        }
        MatchInPrefix(s, i + 1, "::", j);
        assert false;
      }
      assert Separable(a, h);
    } else {
      forall a, h | s == a + "::" + h
        ensures !Separable(a, h)
      {
        if Separable(a, h) {
          assert "::"[..1] == ":";
          SplitAfterHead(a, "::", h);
          SplitWithout(h, "::");
          assert false;
        }
      }
    }
  }

  /** Printing a separable identifier and parsing it back is the identity. */
  lemma ToStringParse(id: AppIdentifier)
    requires Separable(id.appId, id.hubId)
    ensures Parse(ToString(id)) == Ok(id)
  {
  }

  /** Identifiers whose halves have no ':' at all always round-trip. */
  lemma ColonFreeSeparable(appId: string, hubId: string)
    requires ':' !in appId && ':' !in hubId
    ensures Separable(appId, hubId)
  {
    NoColonPair(appId);
    NoColonPair(hubId);
  }

  /** "rust::github" parses into its two halves. */
  lemma ParseExampleAccepted()
    ensures Parse("rust" + "::" + "github") == Ok(AppIdentifier("rust", "github"))
  {
    ColonFreeSeparable("rust", "github");
    ToStringParse(AppIdentifier("rust", "github"));
  }

  /** "invalid" has one piece and is rejected. */
  lemma ParseOnePieceRejected()
    ensures Parse("invalid").Err?
  {
    NoColonPair("invalid");
    SplitWithout("invalid", "::");
  }

  /** Three colon-free pieces, such as "too::many::parts", are rejected. */
  lemma ParseThreePiecesRejected(a: string, b: string, c: string)
    requires ':' !in a && ':' !in b && ':' !in c
    ensures Parse(a + "::" + (b + "::" + c)).Err?
  {
    assert Split(b + "::" + c, "::") == [b, c] by {
      NoColonPair(b);
      NoColonPair(c);
      assert "::"[..1] == ":";
      SplitAfterHead(b, "::", c);
      SplitWithout(c, "::");
    }
    assert Split(a + "::" + (b + "::" + c), "::") == [a] + [b, c] by {
      NoColonPair(a);
      assert "::"[..1] == ":";
      SplitAfterHead(a, "::", b + "::" + c);
    }
  }

  // ---------------------------------------------------------------------
  // Typed configurations and their JSON form (serde with `#[serde(default)]`
  // on the map field)

  datatype AppConfig = AppConfig(name: string, metadata: map<string, Json>)
  datatype HubConfig = HubConfig(name: string, providerType: string, config: map<string, Json>)

  /** A required string field. */
  function StrField(j: Json, key: string): Result<string> {
    match Get(j, key)
    case None => Err("missing field `" + key + "`")
    case Some(JStr(s)) => Ok(s)
    case Some(_) => Err("invalid type for field `" + key + "`")
  }

  /** A map field with `#[serde(default)]`: empty when absent. */
  function MapField(j: Json, key: string): Result<map<string, Json>> {
    match Get(j, key)
    case None => Ok(map[])
    case Some(JObj(m)) => Ok(m)
    case Some(_) => Err("invalid type for field `" + key + "`")
  }

  /** `serde_json::from_value::<AppConfig>`. */
  function AppConfigFromJson(j: Json): Result<AppConfig> {
    if !j.JObj? then Err("invalid type: expected struct AppConfig")
    else
      var name :- StrField(j, "name");
      var metadata :- MapField(j, "metadata");
      Ok(AppConfig(name, metadata))
  }

  /** `serde_json::from_value::<HubConfig>`. */
  function HubConfigFromJson(j: Json): Result<HubConfig> {
    if !j.JObj? then Err("invalid type: expected struct HubConfig")
    else
      var name :- StrField(j, "name");
      var providerType :- StrField(j, "provider_type");
      var config :- MapField(j, "config");
      Ok(HubConfig(name, providerType, config))
  }

  /** The document `save_app_config` writes; reading it back gives the
      same configuration. */
  function AppConfigToJson(c: AppConfig): (j: Json)
    ensures AppConfigFromJson(j) == Ok(c)
  {
    JObj(map["name" := JStr(c.name), "metadata" := JObj(c.metadata)])
  }

  /** The document `save_hub_config` writes; reading it back gives the
      same configuration. */
  function HubConfigToJson(c: HubConfig): (j: Json)
    ensures HubConfigFromJson(j) == Ok(c)
  {
    JObj(map["name" := JStr(c.name), "provider_type" := JStr(c.providerType), "config" := JObj(c.config)])
  }

  // ---------------------------------------------------------------------
  // The layered fold of load_merged_app_config / load_merged_hub_config

  /** Folds layers given lowest priority first: the first is taken as it
      is, each later one is applied to the accumulator as a merge patch. */
  function FoldLayers(layers: seq<Json>): (r: Option<Json>)
    ensures r.Some? <==> |layers| > 0
    decreases |layers|
  {
    if |layers| == 0 then None
    else
      var last := layers[|layers| - 1];
      match FoldLayers(layers[..|layers| - 1])
      case None => Some(last)
      case Some(base) => Some(Merge(base, last))
  }

  /** The repository fragments in ascending priority: the files found, in
      reverse of the (descending-priority) find order. */
  function Fragments(found: seq<(string, FileKey)>, files: map<FileKey, Json>): (layers: seq<Json>)
    requires forall x :: x in found ==> x.1 in files
    ensures |layers| == |found|
    ensures forall i :: 0 <= i < |found| ==> layers[i] == files[found[|found| - 1 - i].1]
    decreases |found|
  {
    if |found| == 0 then []
    else Fragments(found[1..], files) + [files[found[0].1]]
  }

  /** The default repository is consulted only when no repository layer
      exists; the local layer is applied last. */
  function Resolve(repoLayers: seq<Json>, default: Option<Json>, local: Option<Json>): Option<Json> {
    var base := FoldLayers(repoLayers);
    var base := if base.None? then default else base;
    match local
    case None => base
    case Some(l) => Some(if base.None? then l else Merge(base.value, l))
  }

  function Lookup(files: map<FileKey, Json>, key: FileKey): Option<Json> {
    if key in files then Some(files[key]) else None
  }

  /** The repository layers for `id`: none without a repository manager. */
  function RepoLayers(repos: Option<seq<Repo>>, files: map<FileKey, Json>, kind: Kind, id: string): seq<Json> {
    match repos
    case None => []
    case Some(rs) => Fragments(Locate(EnabledOnly(rs), files, kind, id), files)
  }

  /** The merged document for `id`, or None when no layer has it. */
  function MergedDoc(repos: Option<seq<Repo>>, files: map<FileKey, Json>, kind: Kind, id: string): Option<Json> {
    Resolve(RepoLayers(repos, files, kind, id),
            Lookup(files, FileKey(RepoDir, kind, id)),
            Lookup(files, FileKey(ConfigDir, kind, id)))
  }

  function MergedApp(repos: Option<seq<Repo>>, files: map<FileKey, Json>, id: string): Result<AppConfig> {
    match MergedDoc(repos, files, Apps, id)
    case None => Err("App configuration not found: " + id)
    case Some(doc) => AppConfigFromJson(doc)
  }

  function MergedHub(repos: Option<seq<Repo>>, files: map<FileKey, Json>, id: string): Result<HubConfig> {
    match MergedDoc(repos, files, Hubs, id)
    case None => Err("Hub configuration not found: " + id)
    case Some(doc) => HubConfigFromJson(doc)
  }

  /** Adding a layer on top applies it as a patch to what lies below. */
  lemma FoldOnTop(layers: seq<Json>, top: Json)
    ensures FoldLayers(layers + [top])
            == Some(if |layers| == 0 then top else Merge(FoldLayers(layers).value, top))
  {
    assert (layers + [top])[..|layers|] == layers;
  }

  /** The lowest fragment is taken verbatim rather than merged into `{}`:
      a null member in it survives, which a merge into `{}` would drop. */
  lemma LowestLayerVerbatim()
    ensures FoldLayers([JObj(map["a" := JNull])]) == Some(JObj(map["a" := JNull]))
    ensures Merge(JObj(map[]), JObj(map["a" := JNull])) != JObj(map["a" := JNull])
  {
    assert [JObj(map["a" := JNull])][..0] == [];
    assert "a" !in Merge(JObj(map[]), JObj(map["a" := JNull])).fields;
  }

  /** A scalar or array member of the highest layer is the member of the
      result, whatever the lower layers say. */
  lemma TopLayerWins(layers: seq<Json>, k: string)
    requires |layers| > 0
    requires var top := layers[|layers| - 1];
             top.JObj? && k in top.fields && !top.fields[k].JNull? && !top.fields[k].JObj?
    ensures var r := FoldLayers(layers).value;
            r.JObj? && k in r.fields && r.fields[k] == layers[|layers| - 1].fields[k]
  {
  }

  /** A member that no higher layer mentions is inherited unchanged from
      the fold of the layers up to `n`. */
  lemma {:induction false} Inherited(layers: seq<Json>, n: nat, k: string)
    requires 0 < n <= |layers|
    requires forall i :: n <= i < |layers| ==> layers[i].JObj? && k !in layers[i].fields
    requires var b := FoldLayers(layers[..n]).value; b.JObj? && k in b.fields
    ensures var r := FoldLayers(layers).value;
            r.JObj? && k in r.fields && r.fields[k] == FoldLayers(layers[..n]).value.fields[k]
    decreases |layers| - n
  {
    if n < |layers| {
      var init := layers[..|layers| - 1];
      var top := layers[|layers| - 1];
      assert init[..n] == layers[..n];
      Inherited(init, n, k);
      var b := FoldLayers(init).value;
      assert FoldLayers(layers) == Some(Merge(b, top));
      assert top.JObj? && k !in top.fields;
      assert b.JObj? && k in b.fields;
      assert k in Fields(b);
    } else {
      assert layers[..n] == layers;
    }
  }

  /** No layer at all is the only way to get no configuration. */
  lemma ResolveNone(repoLayers: seq<Json>, default: Option<Json>, local: Option<Json>)
    ensures Resolve(repoLayers, default, local).None?
            <==> |repoLayers| == 0 && default.None? && local.None?
  {
  }

  /** The default `repo/` file is ignored as soon as one repository has the id. */
  lemma DefaultShadowed(repoLayers: seq<Json>, default: Option<Json>, local: Option<Json>)
    requires |repoLayers| > 0
    ensures Resolve(repoLayers, default, local) == Resolve(repoLayers, None, local)
  {
  }

  /** The local `config/` file is applied last, as a patch over everything else. */
  lemma LocalLast(repoLayers: seq<Json>, default: Option<Json>, l: Json)
    ensures Resolve(repoLayers, default, Some(l))
            == Some(match Resolve(repoLayers, default, None)
                    case None => l
                    case Some(b) => Merge(b, l))
  {
  }

  /** The highest-priority enabled repository holding the file supplies the
      top repository layer. */
  lemma HighestRepoOnTop(found: seq<(string, FileKey)>, files: map<FileKey, Json>)
    requires forall x :: x in found ==> x.1 in files
    requires |found| > 0
    ensures Fragments(found, files)[|found| - 1] == files[found[0].1]
  {
  }

  /** A missing identifier in every layer yields the "not found" error,
      never an empty configuration. */
  lemma NotFoundIsError(repos: Option<seq<Repo>>, files: map<FileKey, Json>, id: string)
    requires RepoLayers(repos, files, Apps, id) == []
    requires FileKey(RepoDir, Apps, id) !in files && FileKey(ConfigDir, Apps, id) !in files
    ensures MergedApp(repos, files, id) == Err("App configuration not found: " + id)
  {
  }

  // ---------------------------------------------------------------------
  // The app_list file

  predicate KeptLine(line: string) {
    Trim(line) != "" && !StartsWith(Trim(line), "#")
  }

  /** The trimmed lines that are neither blank nor comments, in order. */
  function KeepLines(lines: seq<string>): (r: seq<string>)
    ensures |r| <= |lines|
    ensures forall e :: e in r ==> e != "" && !StartsWith(e, "#")
    decreases |lines|
  {
    if |lines| == 0 then []
    else (if KeptLine(lines[0]) then [Trim(lines[0])] else []) + KeepLines(lines[1..])
  }

  /** Every kept entry is one of the lines, trimmed. */
  lemma {:induction false} KeptLinesComeFromLines(lines: seq<string>)
    ensures forall e :: e in KeepLines(lines) ==> exists l :: l in lines && e == Trim(l)
    decreases |lines|
  {
    if |lines| > 0 {
      KeptLinesComeFromLines(lines[1..]);
      forall e | e in KeepLines(lines)
        ensures exists l :: l in lines && e == Trim(l)
      {
        if e !in KeepLines(lines[1..]) {
          assert lines[0] in lines && e == Trim(lines[0]);
        } else {
          var l :| l in lines[1..] && e == Trim(l);
          assert l in lines;
        }
      }
    }
  }

  /** `load_app_list`: `content.lines()` trimmed and filtered. (`lines()`
      also drops a '\r' before each '\n', which the trim removes anyway,
      and a final empty line, which the filter removes anyway.) */
  function ParseAppList(content: string): (r: seq<string>)
    ensures forall e :: e in r ==> e != "" && !StartsWith(e, "#") && '\n' !in e
  {
    var lines := Split(content, "\n");
    var r := KeepLines(lines);
    assert forall l :: l in lines ==> '\n' !in l by {
      SplitPiecesWithout(content, '\n');
    }
    KeptLinesComeFromLines(lines);
    r
  }

  /** The pieces of a split on one character never contain it. */
  lemma {:induction false} SplitPiecesWithout(s: string, c: char)
    ensures forall l :: l in Split(s, [c]) ==> c !in l
    decreases |s|
  {
    match IndexOf(s, [c])
    case None =>
      forall i | 0 <= i < |s| ensures s[i] != c {
        assert !MatchAt(s, [c], i);
        assert s[i..i + 1] == [s[i]];
      }
    case Some(i) =>
      SplitPiecesWithout(s[i + 1..], c);
      forall j | 0 <= j < i ensures s[j] != c {
        assert !MatchAt(s, [c], j);
        assert s[j..j + 1] == [s[j]];
      }
  }

  /** `save_app_list`: the entries joined by newlines. */
  function AppListText(list: seq<string>): string {
    Join(list, "\n")
  }

  /** An entry `save_app_list` can write and `load_app_list` read back. */
  predicate CleanEntry(e: string) {
    e != "" && Trim(e) == e && !StartsWith(e, "#") && '\n' !in e
  }

  /** Saving and reloading a list of clean entries gives the same list. */
  lemma SaveLoadRoundTrip(list: seq<string>)
    requires forall i :: 0 <= i < |list| ==> CleanEntry(list[i])
    ensures ParseAppList(AppListText(list)) == list
  {
    if |list| == 0 {
      assert !Contains("", "\n");
      SplitWithout("", "\n");
    } else {
      forall i | 0 <= i < |list|
        ensures !Contains(list[i] + "\n"[..0], "\n")
      {
        assert list[i] + "\n"[..0] == list[i];
        CharAbsent(list[i], '\n');
      }
      SplitJoin(list, "\n");
      KeepAllClean(list);
    }
  }

  lemma {:induction false} KeepAllClean(list: seq<string>)
    requires forall i :: 0 <= i < |list| ==> CleanEntry(list[i])
    ensures KeepLines(list) == list
    decreases |list|
  {
    if |list| > 0 {
      KeepAllClean(list[1..]);
    }
  }

  /** A kept line followed by a dropped one keeps only the first, trimmed. */
  lemma KeepSecondOfTwo(x: string, y: string)
    requires !KeptLine(x) && KeptLine(y)
    ensures KeepLines([x, y]) == [Trim(y)]
  {
    assert [x, y][1..] == [y];
    assert [y][1..] == [];
  }

  /** A comment line read from the file is gone after the list is saved. */
  lemma CommentsDropped(comment: string, entry: string)
    requires StartsWith(comment, "#") && Trim(comment) == comment && '\n' !in comment
    requires CleanEntry(entry)
    ensures ParseAppList(comment + "\n" + entry) == [entry]
  {
    assert Split(comment + "\n" + entry, "\n") == [comment, entry] by {
      assert "\n"[..0] == [];
      assert comment + [] == comment;
      CharAbsent(comment, '\n');
      SplitAfterHead(comment, "\n", entry);
      CharAbsent(entry, '\n');
      SplitWithout(entry, "\n");
    }
    KeepSecondOfTwo(comment, entry);
  }

  // ---------------------------------------------------------------------
  // list_available_apps / list_available_hubs

  /** The stem of `<id>.json` as `trim_end_matches(".json")` computes it. */
  function Stem(id: string): string {
    TrimEndMatches(id + ".json", ".json")
  }

  /** The stems of the `.json` files in `<dir>/<kind>`. */
  function DirStems(files: map<FileKey, Json>, dir: string, kind: Kind): set<string> {
    set k | k in files && k.dir == dir && k.kind == kind :: Stem(k.id)
  }

  /** Every id listed: from the enabled repositories when there is a
      repository manager, from the default directory otherwise. */
  function Available(repos: Option<seq<Repo>>, files: map<FileKey, Json>, kind: Kind): set<string> {
    match repos
    case None => DirStems(files, RepoDir, kind)
    case Some(rs) =>
      set k, r | k in files && r in rs && r.enabled && k.dir == r.path && k.kind == kind :: Stem(k.id)
  }

  /** Inserts `x` into a strictly increasing list that lacks it. */
  function InsertSorted(s: seq<string>, x: string): (r: seq<string>)
    requires StrictlySorted(s) && x !in s
    ensures StrictlySorted(r)
    ensures forall y :: y in r <==> y in s || y == x
    ensures |r| == |s| + 1
    decreases |s|
  {
    if |s| == 0 then [x]
    else if LexLess(x, s[0]) then
      assert forall j :: 0 <= j < |s| ==> LexLess(x, s[j]) by {
        forall j | 0 <= j < |s| ensures LexLess(x, s[j]) {
          if j > 0 { LexLessTransitive(x, s[0], s[j]); }
        }
      }
      [x] + s
    else
      LexLessTotal(x, s[0]);
      var t := InsertSorted(s[1..], x);
      assert forall y :: y in t ==> LexLess(s[0], y) by {
        forall y | y in t ensures LexLess(s[0], y) {
          if y != x {
            var j :| 1 <= j < |s| && s[j] == y;
          }
        }
      }
      [s[0]] + t
  }

  /** `keys().collect()` followed by `sort()`. */
  method SortedKeys(keys: set<string>) returns (r: seq<string>)
    ensures StrictlySorted(r)
    ensures forall y :: y in r <==> y in keys
  {
    r := [];
    var rest := keys;
    while rest != {}
      invariant StrictlySorted(r)
      invariant forall y :: y in keys <==> y in r || y in rest
      invariant forall y :: y in r ==> y !in rest
      decreases |rest|
    {
      var x :| x in rest;
      r := InsertSorted(r, x);
      rest := rest - {x};
    }
  }

  // The lookups of `add_app` and `get_app_details`

  /** `get_app_config` / `get_hub_config`: the cached entry when there is
      one, else the merged configuration. */
  function Cached<C>(cache: map<string, C>, id: string, merged: Result<C>): (r: Result<C>)
    ensures r.Ok? <==> id in cache || merged.Ok?
    ensures id in cache ==> r == Ok(cache[id])
  {
    if id in cache then Ok(cache[id]) else merged
  }

  /** The cache after such a lookup: a resolved configuration is added and
      nothing is ever evicted, even when the lookup fails. */
  function CacheAfter<C>(cache: map<string, C>, id: string, merged: Result<C>): (c: map<string, C>)
    ensures forall k :: k in cache ==> k in c && c[k] == cache[k]
    ensures id in c <==> Cached(cache, id, merged).Ok?
    ensures c.Keys <= cache.Keys + {id}
  {
    if id in cache || merged.Err? then cache else cache[id := merged.value]
  }

  /** The app list and the two configuration caches of an `AppRegistry`. */
  datatype RegistryState = RegistryState(appList: seq<string>,
                                         apps: map<string, AppConfig>,
                                         hubs: map<string, HubConfig>)

  /** `get_app_details`: the identifier is parsed, then the app is looked
      up, then the hub; the first failure is the answer. */
  function Details(repos: Option<seq<Repo>>, files: map<FileKey, Json>, s: RegistryState, identifier: string)
    : (r: Result<(AppConfig, HubConfig)>)
    ensures r.Err? <==>
              Parse(identifier).Err?
              || (var id := Parse(identifier).value;
                  Cached(s.apps, id.appId, MergedApp(repos, files, id.appId)).Err?
                  || Cached(s.hubs, id.hubId, MergedHub(repos, files, id.hubId)).Err?)
    ensures Parse(identifier).Err? ==> r == Err(Parse(identifier).msg)
    ensures r.Ok? ==> var id := Parse(identifier).value;
              Ok(r.value.0) == Cached(s.apps, id.appId, MergedApp(repos, files, id.appId))
              && Ok(r.value.1) == Cached(s.hubs, id.hubId, MergedHub(repos, files, id.hubId))
  {
    match Parse(identifier)
    case Err(m) => Err(m)
    case Ok(id) =>
      var app := Cached(s.apps, id.appId, MergedApp(repos, files, id.appId));
      var hub := Cached(s.hubs, id.hubId, MergedHub(repos, files, id.hubId));
      if app.Err? then Err(app.msg)
      else if hub.Err? then Err(hub.msg)
      else Ok((app.value, hub.value))
  }

  /** The state after the lookups of `get_app_details`: the app lookup
      caches a resolved app, and the hub lookup, reached only when the app
      resolved, caches a resolved hub. The list is kept. */
  function LookedUp(repos: Option<seq<Repo>>, files: map<FileKey, Json>, s: RegistryState, identifier: string)
    : (t: RegistryState)
    ensures t.appList == s.appList
    ensures Parse(identifier).Err? ==> t == s
    ensures Parse(identifier).Ok? ==> var id := Parse(identifier).value;
              && t.apps == CacheAfter(s.apps, id.appId, MergedApp(repos, files, id.appId))
              && t.hubs == if Cached(s.apps, id.appId, MergedApp(repos, files, id.appId)).Err? then s.hubs
                           else CacheAfter(s.hubs, id.hubId, MergedHub(repos, files, id.hubId))
  {
    match Parse(identifier)
    case Err(_) => s
    case Ok(id) =>
      var app := MergedApp(repos, files, id.appId);
      var apps := CacheAfter(s.apps, id.appId, app);
      if Cached(s.apps, id.appId, app).Err? then s.(apps := apps)
      else s.(apps := apps, hubs := CacheAfter(s.hubs, id.hubId, MergedHub(repos, files, id.hubId)))
  }

  /** `add_app`: the answer of the lookups and, when they succeed, the
      identifier appended to the list unless it is listed already. */
  function Added(repos: Option<seq<Repo>>, files: map<FileKey, Json>, s: RegistryState, identifier: string)
    : (Result<()>, RegistryState)
  {
    var d := Details(repos, files, s, identifier);
    var after := LookedUp(repos, files, s, identifier);
    if d.Ok? then (Ok(()), after.(appList := PushAbsent(after.appList, identifier)))
    else (Err(d.msg), after)
  }

  /** What `add_app` answers and leaves: the lookups' answer; on success
      the identifier listed (appended only if absent), on failure the
      list as it was; the caches as the lookups leave them. */
  lemma AddedOutcome(repos: Option<seq<Repo>>, files: map<FileKey, Json>, s: RegistryState, identifier: string)
    ensures var t := Added(repos, files, s, identifier);
            && (t.0.Ok? <==> Details(repos, files, s, identifier).Ok?)
            && (t.0.Err? ==> t.0.msg == Details(repos, files, s, identifier).msg)
            && (t.0.Ok? ==> t.1.appList == PushAbsent(s.appList, identifier) && identifier in t.1.appList)
            && (t.0.Err? ==> t.1.appList == s.appList)
            && t.1.apps == LookedUp(repos, files, s, identifier).apps
            && t.1.hubs == LookedUp(repos, files, s, identifier).hubs
  {
  }

  /** `add_app` over fixed files, as a function of the registry state. */
  function AddStep(repos: Option<seq<Repo>>, files: map<FileKey, Json>)
    : (RegistryState, string) -> (Result<()>, RegistryState)
  {
    (s: RegistryState, identifier: string) => Added(repos, files, s, identifier)
  }

  /** An `add_app`-like step that lists exactly the identifiers it
      accepts: pushed when accepted, the list kept when refused. */
  ghost predicate ListsAccepted(add: (RegistryState, string) -> (Result<()>, RegistryState)) {
    forall s: RegistryState, identifier: string ::
      (add(s, identifier).0.Ok? ==> add(s, identifier).1.appList == PushAbsent(s.appList, identifier))
      && (add(s, identifier).0.Err? ==> add(s, identifier).1.appList == s.appList)
  }

  /** `add_app` is such a step. */
  lemma AddStepListsAccepted(repos: Option<seq<Repo>>, files: map<FileKey, Json>)
    ensures ListsAccepted(AddStep(repos, files))
  {
    forall s: RegistryState, identifier: string
      ensures var t := AddStep(repos, files)(s, identifier);
              (t.0.Ok? ==> t.1.appList == PushAbsent(s.appList, identifier))
              && (t.0.Err? ==> t.1.appList == s.appList)
    {
      AddedOutcome(repos, files, s, identifier);
    }
  }

  /** `Added` is the only outcome with its answer, its list and its caches. */
  lemma AddedFromParts(repos: Option<seq<Repo>>, files: map<FileKey, Json>, s: RegistryState, identifier: string,
                       r: Result<()>, t: RegistryState)
    requires r.Ok? <==> Details(repos, files, s, identifier).Ok?
    requires r.Err? ==> r.msg == Details(repos, files, s, identifier).msg
    requires r.Ok? ==> t.appList == PushAbsent(s.appList, identifier)
    requires r.Err? ==> t.appList == s.appList
    requires t.apps == LookedUp(repos, files, s, identifier).apps
    requires t.hubs == LookedUp(repos, files, s, identifier).hubs
    ensures (r, t) == Added(repos, files, s, identifier)
  {
    var a := Added(repos, files, s, identifier);
    assert a.1 == RegistryState(t.appList, t.apps, t.hubs);
    if r.Ok? {
      assert r.value == ();
    } else {
      assert r == Err(r.msg);
    }
  }

  /** A successful lookup leaves both configurations cached, so a second
      `get_app_details` answers the same from the caches and caches
      nothing more; a failing one fails again with the same message. */
  lemma DetailsRepeat(repos: Option<seq<Repo>>, files: map<FileKey, Json>, s: RegistryState, identifier: string)
    ensures var t := LookedUp(repos, files, s, identifier);
            Details(repos, files, t, identifier) == Details(repos, files, s, identifier)
            && LookedUp(repos, files, t, identifier) == t
    ensures Details(repos, files, s, identifier).Ok? ==>
              var id := Parse(identifier).value;
              var t := LookedUp(repos, files, s, identifier);
              id.appId in t.apps && t.apps[id.appId] == Details(repos, files, s, identifier).value.0
              && id.hubId in t.hubs && t.hubs[id.hubId] == Details(repos, files, s, identifier).value.1
  {
    if Parse(identifier).Ok? {
      var id := Parse(identifier).value;
      var t := LookedUp(repos, files, s, identifier);
      var app := MergedApp(repos, files, id.appId);
      var hub := MergedHub(repos, files, id.hubId);
      CachedAgain(s.apps, id.appId, app);
      CachedAgain(s.hubs, id.hubId, hub);
    }
  }

  /** Caching is idempotent: a lookup after caching finds what the first
      lookup gave, and caching again changes nothing. */
  lemma CachedAgain<C>(cache: map<string, C>, id: string, merged: Result<C>)
    ensures Cached(CacheAfter(cache, id, merged), id, merged) == Cached(cache, id, merged)
    ensures CacheAfter(CacheAfter(cache, id, merged), id, merged) == CacheAfter(cache, id, merged)
    ensures Cached(cache, id, merged).Ok? ==>
              id in CacheAfter(cache, id, merged) && CacheAfter(cache, id, merged)[id] == Cached(cache, id, merged).value
  {
  }

  /** `add_app` is idempotent: adding the same identifier again gives the
      same answer and leaves the list and the caches as the first call
      left them. */
  lemma AddedTwice(repos: Option<seq<Repo>>, files: map<FileKey, Json>, s: RegistryState, identifier: string)
    ensures var first := Added(repos, files, s, identifier);
            Added(repos, files, first.1, identifier) == first
  {
    var first := Added(repos, files, s, identifier);
    var t := LookedUp(repos, files, s, identifier);
    DetailsRepeat(repos, files, s, identifier);
    AddedOutcome(repos, files, s, identifier);
    AddedOutcome(repos, files, first.1, identifier);
    assert Details(repos, files, first.1, identifier) == Details(repos, files, t, identifier);
    assert LookedUp(repos, files, first.1, identifier).apps == t.apps;
    assert LookedUp(repos, files, first.1, identifier).hubs == t.hubs;
    if first.0.Ok? {
      assert identifier in first.1.appList;
    }
  }

  class AppRegistry {
    const store: FileStore
    const manager: RepositoryManager?
    var appList: seq<string>
    var appsCache: map<string, AppConfig>
    var hubsCache: map<string, HubConfig>

    /** The registry and its repository manager see the same files. */
    predicate Valid() {
      manager != null ==> manager.store == store
    }

    /** The repositories, when there is a repository manager. */
    function Repos(): Option<seq<Repo>>
      reads if manager != null then {manager.config} else {}
    {
      if manager != null then Some(manager.config.repositories) else None
    }

    /** `AppRegistry::new`: empty caches and the app list read from
        `config/app_list` (empty when the file does not exist). */
    constructor(store: FileStore, manager: RepositoryManager?)
      requires manager != null ==> manager.store == store
      ensures Valid() && this.store == store && this.manager == manager
      ensures appList == (if store.appListText.Some? then ParseAppList(store.appListText.value) else [])
      ensures appsCache == map[] && hubsCache == map[]
    {
      this.store := store;
      this.manager := manager;
      appList := [];
      appsCache := map[];
      hubsCache := map[];
      new;
      LoadAppList();
    }

    method LoadAppList()
      modifies this
      ensures appList == (if store.appListText.Some? then ParseAppList(store.appListText.value) else old(appList))
      ensures appsCache == old(appsCache) && hubsCache == old(hubsCache)
    {
      if store.appListText.Some? {
        appList := ParseAppList(store.appListText.value);
      }
    }

    method SaveAppList()
      modifies store
      ensures store.appListText == Some(AppListText(appList))
      ensures store.files == old(store.files)
    {
      store.WriteAppList(AppListText(appList));
    }

    /** Folds the layers for one app or hub id; the loop visits the
        repositories found in reverse, i.e. ascending priority. */
    method LoadMergedDoc(kind: Kind, id: string) returns (doc: Option<Json>)
      requires Valid()
      ensures doc == MergedDoc(Repos(), store.files, kind, id)
    {
      doc := None;
      if manager != null {
        var found;
        if kind == Apps {
          found := manager.FindAppInRepositories(id);
        } else {
          found := manager.FindHubInRepositories(id);
        }
        var i := |found|;
        while i > 0
          invariant 0 <= i <= |found|
          invariant doc == FoldLayers(Fragments(found[i..], store.files))
        {
          i := i - 1;
          var layer := store.files[found[i].1];
          assert found[i..][1..] == found[i + 1..];
          FoldOnTop(Fragments(found[i + 1..], store.files), layer);
          if doc.None? {
            doc := Some(layer);
          } else {
            doc := Some(Merge(doc.value, layer));
          }
        }
        assert found[0..] == found;
      }
      if doc.None? {
        var key := FileKey(RepoDir, kind, id);
        if key in store.files {
          doc := Some(store.files[key]);
        }
      }
      var local := FileKey(ConfigDir, kind, id);
      if local in store.files {
        if doc.None? {
          doc := Some(store.files[local]);
        } else {
          doc := Some(Merge(doc.value, store.files[local]));
        }
      }
    }

    method LoadMergedAppConfig(id: string) returns (r: Result<AppConfig>)
      requires Valid()
      ensures r == MergedApp(Repos(), store.files, id)
    {
      var doc := LoadMergedDoc(Apps, id);
      match doc
      case None => r := Err("App configuration not found: " + id);
      case Some(d) => r := AppConfigFromJson(d);
    }

    method LoadMergedHubConfig(id: string) returns (r: Result<HubConfig>)
      requires Valid()
      ensures r == MergedHub(Repos(), store.files, id)
    {
      var doc := LoadMergedDoc(Hubs, id);
      match doc
      case None => r := Err("Hub configuration not found: " + id);
      case Some(d) => r := HubConfigFromJson(d);
    }

    /** The cached configuration if there is one (even if the files have
        changed since), else the merged one, which is then cached. */
    method GetAppConfig(id: string) returns (r: Result<AppConfig>)
      requires Valid()
      modifies this
      ensures r == if id in old(appsCache) then Ok(old(appsCache)[id]) else MergedApp(Repos(), store.files, id)
      ensures appsCache == if id in old(appsCache) || r.Err? then old(appsCache) else old(appsCache)[id := r.value]
      ensures appList == old(appList) && hubsCache == old(hubsCache)
    {
      if id in appsCache {
        return Ok(appsCache[id]);
      }
      r := LoadMergedAppConfig(id);
      if r.Ok? {
        appsCache := appsCache[id := r.value];
      }
    }

    method GetHubConfig(id: string) returns (r: Result<HubConfig>)
      requires Valid()
      modifies this
      ensures r == if id in old(hubsCache) then Ok(old(hubsCache)[id]) else MergedHub(Repos(), store.files, id)
      ensures hubsCache == if id in old(hubsCache) || r.Err? then old(hubsCache) else old(hubsCache)[id := r.value]
      ensures appList == old(appList) && appsCache == old(appsCache)
    {
      if id in hubsCache {
        return Ok(hubsCache[id]);
      }
      r := LoadMergedHubConfig(id);
      if r.Ok? {
        hubsCache := hubsCache[id := r.value];
      }
    }

    /** The list and the caches, as one value. */
    function State(): RegistryState
      reads this
    {
      RegistryState(appList, appsCache, hubsCache)
    }

    /** Succeeds only when the identifier parses and both its app and hub
        configurations resolve; then lists it unless it is listed already.
        The lookups fill the caches as `get_app_details` does, even when
        the hub lookup then fails. */
    method AddApp(identifier: string) returns (r: Result<()>)
      requires Valid()
      modifies this, store
      ensures store.files == old(store.files)
      ensures (r, State()) == Added(Repos(), store.files, old(State()), identifier)
      ensures r.Ok? && identifier !in old(appList) ==>
                appList == old(appList) + [identifier] && store.appListText == Some(AppListText(appList))
      ensures r.Err? || identifier in old(appList) ==> appList == old(appList) && store.appListText == old(store.appListText)
    {
      ghost var before := State();
      var details := GetAppDetails(identifier);
      ghost var looked := State();
      assert looked == LookedUp(Repos(), store.files, before, identifier);
      if details.Err? {
        r := Err(details.msg);
      } else {
        if identifier !in appList {
          appList := appList + [identifier];
          SaveAppList();
        }
        r := Ok(());
      }
      assert appsCache == looked.apps && hubsCache == looked.hubs;
      AddedFromParts(Repos(), store.files, before, identifier, r, State());
    }

    /** Removes the first occurrence and reports whether there was one. */
    method RemoveApp(identifier: string) returns (removed: bool)
      modifies this, store
      ensures removed <==> identifier in old(appList)
      ensures appList == RemoveFirst(old(appList), identifier)
      ensures removed ==> store.appListText == Some(AppListText(appList))
      ensures !removed ==> appList == old(appList) && store.appListText == old(store.appListText)
      ensures store.files == old(store.files)
      ensures appsCache == old(appsCache) && hubsCache == old(hubsCache)
    {
      var i := 0;
      while i < |appList| && appList[i] != identifier
        invariant 0 <= i <= |appList|
        invariant forall j :: 0 <= j < i ==> appList[j] != identifier
      {
        i := i + 1;
      }
      if i == |appList| {
        return false;
      }
      PositionIsFirst(appList, identifier, i);
      appList := appList[..i] + appList[i + 1..];
      SaveAppList();
      removed := true;
    }

    /** `list_apps`: the tracked list, which is what reloading the saved
        `config/app_list` reads back when every entry is clean. */
    function ListApps(): (r: seq<string>)
      reads this, store
      ensures (forall i :: 0 <= i < |r| ==> CleanEntry(r[i])) && store.appListText == Some(AppListText(appList))
              ==> ParseAppList(store.appListText.value) == r
    {
      if forall i :: 0 <= i < |appList| ==> CleanEntry(appList[i]) then
        SaveLoadRoundTrip(appList);
        appList
      else appList
    }

    /** Writes the configuration to `repo/` (`to_repo`) or to the local
        `config/` layer; the caches are not touched. */
    method SaveAppConfig(id: string, config: AppConfig, toRepo: bool)
      modifies store
      ensures store.files == old(store.files)[FileKey(if toRepo then RepoDir else ConfigDir, Apps, id) := AppConfigToJson(config)]
      ensures store.appListText == old(store.appListText)
    {
      store.Write(FileKey(if toRepo then RepoDir else ConfigDir, Apps, id), AppConfigToJson(config));
    }

    method SaveHubConfig(id: string, config: HubConfig, toRepo: bool)
      modifies store
      ensures store.files == old(store.files)[FileKey(if toRepo then RepoDir else ConfigDir, Hubs, id) := HubConfigToJson(config)]
      ensures store.appListText == old(store.appListText)
    {
      store.Write(FileKey(if toRepo then RepoDir else ConfigDir, Hubs, id), HubConfigToJson(config));
    }

    /** The identifier's app and hub configurations, through the caches. */
    method GetAppDetails(identifier: string) returns (r: Result<(AppConfig, HubConfig)>)
      requires Valid()
      modifies this
      ensures r == Details(Repos(), store.files, old(State()), identifier)
      ensures State() == LookedUp(Repos(), store.files, old(State()), identifier)
    {
      var id :- Parse(identifier);
      var app :- GetAppConfig(id.appId);
      var hub :- GetHubConfig(id.hubId);
      r := Ok((app, hub));
    }

    method ClearCache()
      modifies this
      ensures appsCache == map[] && hubsCache == map[] && appList == old(appList)
    {
      appsCache := map[];
      hubsCache := map[];
    }

    /** The sorted, duplicate-free ids of every app file reachable. */
    method ListAvailableApps() returns (apps: seq<string>)
      ensures StrictlySorted(apps)
      ensures forall x :: x in apps <==> x in Available(Repos(), store.files, Apps)
    {
      apps := ListAvailable(Apps);
    }

    /** The sorted, duplicate-free ids of every hub file reachable. */
    method ListAvailableHubs() returns (hubs: seq<string>)
      ensures StrictlySorted(hubs)
      ensures forall x :: x in hubs <==> x in Available(Repos(), store.files, Hubs)
    {
      hubs := ListAvailable(Hubs);
    }

    method ListAvailable(kind: Kind) returns (ids: seq<string>)
      ensures StrictlySorted(ids)
      ensures forall x :: x in ids <==> x in Available(Repos(), store.files, kind)
    {
      var found: set<string> := {};
      if manager != null {
        var repos := manager.config.GetEnabledRepositories();
        var i := 0;
        while i < |repos|
          invariant 0 <= i <= |repos|
          invariant found == set k, r | k in store.files && r in repos[..i] && k.dir == r.path && k.kind == kind :: Stem(k.id)
        {
          found := found + DirStems(store.files, repos[i].path, kind);
          assert forall r :: r in repos[..i + 1] <==> r in repos[..i] || r == repos[i];
          i := i + 1;
        }
        assert repos[..i] == repos;
      } else {
        found := DirStems(store.files, RepoDir, kind);
      }
      ids := SortedKeys(found);
    }
  }
}
