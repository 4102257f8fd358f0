/** packages/getter-provider/src/providers/lsposed.rs: the LSPosed module
    repository provider. The module list the calls search is the JSON file
    bundled at build time; here it is a parameter, `None` when it does not
    parse. */
module Lsposed {
  import opened Wrappers
  import opened JsonValues
  import opened Releases
  import opened BaseProvider

  const DefaultVersion := "1.0.0"
  const ModulesKey := "lsposed:modules"

  // ---------------------------------------------------------------------
  // Reading one module

  /** The module's "name", which is its package id. */
  function ModuleName(m: Json): Option<string> {
    GetStr(m, "name")
  }

  /** A string field, or "" (`unwrap_or("")`). */
  function StrOrEmpty(m: Json, key: string): string {
    GetStr(m, key).GetOr("")
  }

  /** The version of a module: the "name" of its first release when that
      is a string, "1.0.0" otherwise. */
  function ModuleVersion(m: Json): (v: string)
    ensures GetArr(m, "releases").Some? && GetArr(m, "releases").value != []
            && GetStr(GetArr(m, "releases").value[0], "name").Some?
            ==> v == GetStr(GetArr(m, "releases").value[0], "name").value
    ensures GetArr(m, "releases").None? || GetArr(m, "releases").value == []
            || GetStr(GetArr(m, "releases").value[0], "name").None?
            ==> v == DefaultVersion
  {
    match GetArr(m, "releases")
    case Some(releases) =>
      if releases != [] then GetStr(releases[0], "name").GetOr(DefaultVersion) else DefaultVersion
    case None => DefaultVersion
  }

  /** Where the module's zip comes from: its "url", or the repository's
      conventional location. */
  function DownloadUrl(m: Json, packageId: string): string {
    match GetStr(m, "url")
    case Some(url) => url
    case None => "https://modules.lsposed.org/" + packageId + ".zip"
  }

  /** The release reported for a module found under `packageId`: its
      version, its description (or its summary when the description is
      empty), one zip asset, and the package id, name and summary as
      extra. */
  function ModuleRelease(m: Json, packageId: string): (r: ReleaseData)
    ensures r.versionNumber == ModuleVersion(m)
    ensures StrOrEmpty(m, "description") != "" ==> r.changelog == StrOrEmpty(m, "description")
    ensures StrOrEmpty(m, "description") == "" ==> r.changelog == StrOrEmpty(m, "summary")
    ensures |r.assets| == 1
    ensures r.assets[0] == AssetData(packageId + "-" + r.versionNumber + ".zip", "application/zip",
                                     DownloadUrl(m, packageId))
    ensures r.extra.Some? && r.extra.value.Keys == {"package_id", "name", "summary"}
    ensures r.extra.value["package_id"] == packageId && r.extra.value["name"] == StrOrEmpty(m, "name")
            && r.extra.value["summary"] == StrOrEmpty(m, "summary")
  {
    var description := StrOrEmpty(m, "description");
    var summary := StrOrEmpty(m, "summary");
    var version := ModuleVersion(m);
    var extra := map["package_id" := packageId, "name" := StrOrEmpty(m, "name"), "summary" := summary];
    ReleaseData(
      version,
      if description == "" then summary else description,
      [AssetData(packageId + "-" + version + ".zip", "application/zip", DownloadUrl(m, packageId))],
      Some(extra))
  }

  /** The index of the first module named `target`. */
  function FirstNamed(modules: seq<Json>, target: string): (r: Option<nat>)
    ensures r.Some? ==> r.value < |modules| && ModuleName(modules[r.value]) == Some(target)
    ensures r.Some? ==> forall j :: 0 <= j < r.value ==> ModuleName(modules[j]) != Some(target)
    ensures r.None? ==> forall j :: 0 <= j < |modules| ==> ModuleName(modules[j]) != Some(target)
    decreases |modules|
  {
    if modules == [] then None
    else if ModuleName(modules[0]) == Some(target) then Some(0)
    else
      match FirstNamed(modules[1..], target)
      case None => None
      case Some(i) => Some(i + 1)
  }

  /** What `parse_module_from_json` finds: nothing when the data is not an
      array or no module is named `target`, else the first such module's
      release. */
  function ParseModule(data: Json, target: string): (r: Option<ReleaseData>)
    ensures r.None? <==> !data.JArr? || forall j :: 0 <= j < |data.items| ==> ModuleName(data.items[j]) != Some(target)
    ensures r.Some? ==> exists i :: 0 <= i < |data.items| && ModuleName(data.items[i]) == Some(target)
                                    && r.value == ModuleRelease(data.items[i], target)
  {
    if !data.JArr? then None
    else
      match FirstNamed(data.items, target)
      case Some(i) => Some(ModuleRelease(data.items[i], target))
      case None => None
  }

  /** The module found is the first of its name: modules before it and
      modules after it do not matter. */
  lemma FirstModuleWins(before: seq<Json>, m: Json, after: seq<Json>, target: string)
    requires forall j :: 0 <= j < |before| ==> ModuleName(before[j]) != Some(target)
    requires ModuleName(m) == Some(target)
    ensures ParseModule(JArr(before + [m] + after), target) == Some(ModuleRelease(m, target))
  {
    var items := before + [m] + after;
    assert items[|before|] == m;
    var i := FirstNamed(items, target);
    assert i.Some? && i.value == |before| by {
      assert forall j :: 0 <= j < |before| ==> items[j] == before[j];
    }
  }

  /** `parse_module_from_json`: the `for` loop returns at the first module
      whose name is the target. */
  method ParseModuleFromJson(data: Json, target: string) returns (r: Option<ReleaseData>)
    ensures r == ParseModule(data, target)
  {
    if !data.JArr? {
      return None;
    }
    var modules := data.items;
    for i := 0 to |modules|
      invariant forall j :: 0 <= j < i ==> ModuleName(modules[j]) != Some(target)
    {
      var name := ModuleName(modules[i]);
      if name.Some? && name.value == target {
        assert FirstNamed(modules, target) == Some(i) by {
          FirstNamedAt(modules, target, i);
        }
        return Some(ModuleRelease(modules[i], name.value));
      }
    }
    r := None;
  }

  /** A module named `target` with none before it is the one `FirstNamed`
      picks. */
  lemma {:induction false} FirstNamedAt(modules: seq<Json>, target: string, i: nat)
    requires i < |modules| && ModuleName(modules[i]) == Some(target)
    requires forall j :: 0 <= j < i ==> ModuleName(modules[j]) != Some(target)
    ensures FirstNamed(modules, target) == Some(i)
    decreases i
  {
    if i > 0 {
      assert ModuleName(modules[0]) != Some(target);
      assert forall j :: 0 <= j < i - 1 ==> modules[1..][j] == modules[j + 1];
      FirstNamedAt(modules[1..], target, i - 1);
    }
  }

  // ---------------------------------------------------------------------
  // Cache keys and the calls

  /** `get_cache_request_key`: the availability check is keyed by package
      (or "unknown"); both release calls share the whole module list. */
  function CacheRequestKey(ft: FunctionType, appData: map<string, string>): (keys: seq<string>)
    ensures |keys| == 1
    ensures !ft.CheckAppAvailable? ==> keys[0] == ModulesKey
    ensures ft.CheckAppAvailable? ==>
              keys[0] == "lsposed:check:" + (if "package_id" in appData then appData["package_id"] else "unknown")
  {
    match ft
    case CheckAppAvailable =>
      ["lsposed:check:" + (if "package_id" in appData then appData["package_id"] else "unknown")]
    case _ => [ModulesKey]
  }

  /** Different packages get different availability keys, and no
      availability key is the module list key. */
  lemma CheckKeysDistinct(appData1: map<string, string>, appData2: map<string, string>)
    requires "package_id" in appData1 && "package_id" in appData2
    requires appData1["package_id"] != appData2["package_id"]
    ensures CacheRequestKey(CheckAppAvailable, appData1) != CacheRequestKey(CheckAppAvailable, appData2)
    ensures CacheRequestKey(CheckAppAvailable, appData1)[0] != ModulesKey
  {
    var prefix := "lsposed:check:";
    var k1, k2 := CacheRequestKey(CheckAppAvailable, appData1)[0], CacheRequestKey(CheckAppAvailable, appData2)[0];
    assert k1[|prefix|..] == appData1["package_id"];
    assert k2[|prefix|..] == appData2["package_id"];
    assert k1[8] == 'c' && ModulesKey[8] == 'm';
  }

  /** The keys of the provider's own test. */
  lemma CacheKeyExample()
    ensures CacheRequestKey(CheckAppAvailable, map["package_id" := "com.example.module"])
            == ["lsposed:check:com.example.module"]
    ensures CacheRequestKey(GetLatestRelease, map["package_id" := "com.example.module"]) == ["lsposed:modules"]
  {
    var appData := map["package_id" := "com.example.module"];
    assert "package_id" in appData && appData["package_id"] == "com.example.module";
    var key := "lsposed:check:" + "com.example.module";
    assert |key| == 32 && forall i :: 0 <= i < 32 ==> key[i] == "lsposed:check:com.example.module"[i];
    assert key == "lsposed:check:com.example.module";
    assert CacheRequestKey(CheckAppAvailable, appData) == [key];
  }

  const MissingPackage := "Missing package_id in app_data"
  const UnreadableModules := "Failed to parse modules data"
  const ModuleNotFound := "Module not found in LSPosed repository"

  function Failure<T>(message: string): (out: FOut<T>)
    ensures out.result == Error(Other, message) && out.cachedMap.None?
  {
    SetError(NewEmpty(), Other, message)
  }

  /** `check_app_available`: whether the bundled list holds the package. */
  function CheckAvailable(appData: map<string, string>, bundled: Option<Json>): (out: FOut<bool>)
    ensures out.cachedMap.None?
    ensures "package_id" !in appData ==> out.result == Error(Other, MissingPackage)
    ensures "package_id" in appData && bundled.None? ==> out.result == Error(Other, UnreadableModules)
    ensures "package_id" in appData && bundled.Some? ==>
              out.result == Done(ParseModule(bundled.value, appData["package_id"]).Some?)
  {
    if "package_id" !in appData then Failure(MissingPackage)
    else if bundled.None? then Failure(UnreadableModules)
    else NewOut(ParseModule(bundled.value, appData["package_id"]).Some?)
  }

  /** `get_latest_release`: the release of the package's module. */
  function LatestRelease(appData: map<string, string>, bundled: Option<Json>): (out: FOut<ReleaseData>)
    ensures out.cachedMap.None?
    ensures "package_id" !in appData ==> out.result == Error(Other, MissingPackage)
    ensures "package_id" in appData && bundled.None? ==> out.result == Error(Other, UnreadableModules)
    ensures "package_id" in appData && bundled.Some? ==>
              match ParseModule(bundled.value, appData["package_id"])
              case Some(release) => out.result == Done(release)
              case None => out.result == Error(Other, ModuleNotFound)
  {
    if "package_id" !in appData then Failure(MissingPackage)
    else if bundled.None? then Failure(UnreadableModules)
    else
      match ParseModule(bundled.value, appData["package_id"])
      case Some(release) => NewOut(release)
      case None => Failure(ModuleNotFound)
  }

  /** `get_releases`: the latest release as a one-element list, or its
      error. */
  function AllReleases(appData: map<string, string>, bundled: Option<Json>): (out: FOut<seq<ReleaseData>>)
    ensures out.cachedMap.None?
    ensures LatestRelease(appData, bundled).result.Done? ==>
              out.result == Done([LatestRelease(appData, bundled).result.value])
    ensures LatestRelease(appData, bundled).result.Error? ==>
              out.result == Error(Other, LatestRelease(appData, bundled).result.message)
  {
    match LatestRelease(appData, bundled).result
    case Done(release) => NewOut([release])
    case Error(_, message) => Failure(message)
  }

  /** The three calls agree: a package is available exactly when it has a
      latest release, and then the release list is that one release. */
  lemma CallsAgree(appData: map<string, string>, bundled: Option<Json>)
    ensures CheckAvailable(appData, bundled).result.Done? <==> "package_id" in appData && bundled.Some?
    ensures CheckAvailable(appData, bundled).result == Done(true) <==> LatestRelease(appData, bundled).result.Done?
    ensures AllReleases(appData, bundled).result.Done? ==>
              |AllReleases(appData, bundled).result.value| == 1
              && AllReleases(appData, bundled).result.value[0].assets[0].fileType == "application/zip"
  {
    if "package_id" in appData && bundled.Some? {
      var r := ParseModule(bundled.value, appData["package_id"]);
      if r.Some? {
        var i :| 0 <= i < |bundled.value.items| && ModuleName(bundled.value.items[i]) == Some(appData["package_id"])
                 && r.value == ModuleRelease(bundled.value.items[i], appData["package_id"]);
      }
    }
  }
}
