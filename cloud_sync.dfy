/** packages/getter-config/src/cloud_sync.rs: the converter from the
    legacy UUID-keyed cloud document to human-readable app and hub
    fragments, the UUID-to-name table that `sync_to_repo` rebuilds, and
    the two `AppRegistry` entry points built on it. */
module CloudSync {
  import opened Wrappers
  import opened Strings
  import opened JsonValues
  import opened FileSystem
  import opened AppRegistry
  import opened Collections
  import Repository

  // ---------------------------------------------------------------------
  // The legacy document (`cloud_config.json`)

  datatype CloudAppInfo = CloudAppInfo(name: string, url: string, extraMap: map<string, string>)

  datatype CloudAppItem = CloudAppItem(
    baseVersion: int, configVersion: int, uuid: string, baseHubUuid: string, info: CloudAppInfo)

  datatype CloudHubInfo = CloudHubInfo(hubName: string, hubIconUrl: string)

  datatype CloudHubItem = CloudHubItem(
    baseVersion: int, configVersion: int, uuid: string, info: CloudHubInfo,
    targetCheckApi: string, apiKeywords: seq<string>, appUrlTemplates: seq<string>)

  datatype CloudConfig = CloudConfig(appConfigList: seq<CloudAppItem>, hubConfigList: seq<CloudHubItem>)

  // ---------------------------------------------------------------------
  // Ids

  /** `name.to_lowercase().replace(' ', "-")`: every space becomes a
      hyphen, letters are lower-cased, nothing else changes. */
  function Slug(name: string): (r: string)
    ensures |r| == |name|
    ensures forall i :: 0 <= i < |name| ==> r[i] == (if name[i] == ' ' then '-' else LowerChar(name[i]))
  {
    ReplaceChar(ToLower(name), ' ', '-')
  }

  /** Slugs are fixed points: a slug's slug is itself. */
  lemma SlugIdempotent(name: string)
    ensures Slug(Slug(name)) == Slug(name)
  {
    var s := Slug(name);
    forall i | 0 <= i < |s|
      ensures Slug(s)[i] == s[i]
    {
      assert s[i] != ' ';
    }
  }

  /** A name without ':' gives a slug without ':'. */
  lemma SlugColonFree(name: string)
    requires ':' !in name
    ensures ':' !in Slug(name)
  {
    var s := Slug(name);
    forall i | 0 <= i < |s|
      ensures s[i] != ':'
    {
      assert name[i] != ':';
    }
  }

  /** The id of a record: its mapped name if the table has its uuid, its
      slug otherwise. */
  function IdFor(names: map<string, string>, uuid: string, name: string): string {
    if uuid in names then names[uuid] else Slug(name)
  }

  // ---------------------------------------------------------------------
  // convert_app_item / convert_hub_item / create_app_identifier

  const ReservedAppKeys: set<string> := {"uuid", "base_hub_uuid", "url", "base_version", "config_version"}

  /** The five reserved metadata entries copied from the record. */
  function AppReserved(item: CloudAppItem): map<string, Json> {
    map["uuid" := JStr(item.uuid), "base_hub_uuid" := JStr(item.baseHubUuid),
        "url" := JStr(item.info.url), "base_version" := JInt(item.baseVersion),
        "config_version" := JInt(item.configVersion)]
  }

  /** `convert_app_item`: the id, and an `AppConfig` named after the
      display name whose metadata holds the reserved entries and then every
      `extra_map` entry, so that an extra key overrides a reserved one. */
  function ConvertAppItem(names: map<string, string>, item: CloudAppItem): (r: (string, AppConfig))
    ensures r.0 == IdFor(names, item.uuid, item.info.name)
    ensures r.1.name == item.info.name
    ensures r.1.metadata.Keys == ReservedAppKeys + item.info.extraMap.Keys
    ensures forall k :: k in item.info.extraMap ==> r.1.metadata[k] == JStr(item.info.extraMap[k])
    ensures forall k :: k in ReservedAppKeys && k !in item.info.extraMap ==> r.1.metadata[k] == AppReserved(item)[k]
  {
    var extras := map k | k in item.info.extraMap :: JStr(item.info.extraMap[k]);
    (IdFor(names, item.uuid, item.info.name), AppConfig(item.info.name, AppReserved(item) + extras))
  }

  const HubConfigKeys: set<string> :=
    {"uuid", "base_version", "config_version", "hub_icon_url", "target_check_api", "api_keywords", "app_url_templates"}

  /** `convert_hub_item`: the id, used as `provider_type` too, and a
      `HubConfig` whose config holds exactly the seven copied fields. */
  function ConvertHubItem(names: map<string, string>, item: CloudHubItem): (r: (string, HubConfig))
    ensures r.0 == IdFor(names, item.uuid, item.info.hubName)
    ensures r.1.name == item.info.hubName && r.1.providerType == r.0
    ensures r.1.config.Keys == HubConfigKeys
    ensures r.1.config["uuid"] == JStr(item.uuid)
    ensures r.1.config["base_version"] == JInt(item.baseVersion)
    ensures r.1.config["config_version"] == JInt(item.configVersion)
    ensures r.1.config["hub_icon_url"] == JStr(item.info.hubIconUrl)
    ensures r.1.config["target_check_api"] == JStr(item.targetCheckApi)
    ensures r.1.config["api_keywords"] == StrArray(item.apiKeywords)
    ensures r.1.config["app_url_templates"] == StrArray(item.appUrlTemplates)
  {
    var id := IdFor(names, item.uuid, item.info.hubName);
    var config := map["uuid" := JStr(item.uuid), "base_version" := JInt(item.baseVersion),
                      "config_version" := JInt(item.configVersion),
                      "hub_icon_url" := JStr(item.info.hubIconUrl),
                      "target_check_api" := JStr(item.targetCheckApi),
                      "api_keywords" := StrArray(item.apiKeywords),
                      "app_url_templates" := StrArray(item.appUrlTemplates)];
    (id, HubConfig(item.info.hubName, id, config))
  }

  /** The hub half of `create_app_identifier`. */
  function HubIdFor(names: map<string, string>, item: CloudAppItem): string {
    if item.baseHubUuid in names then names[item.baseHubUuid] else "unknown"
  }

  /** `create_app_identifier`: `<app id>::<hub id>`, which parses back into
      the two ids when they are separable; a hub uuid missing from the
      table is written as "unknown". */
  function CreateAppIdentifier(names: map<string, string>, item: CloudAppItem): (r: string)
    ensures Separable(IdFor(names, item.uuid, item.info.name), HubIdFor(names, item)) ==>
              Parse(r) == Ok(AppIdentifier(IdFor(names, item.uuid, item.info.name), HubIdFor(names, item)))
    ensures item.baseHubUuid !in names ==> EndsWith(r, "::unknown")
  {
    ToString(AppIdentifier(IdFor(names, item.uuid, item.info.name), HubIdFor(names, item)))
  }

  /** The identifier names the app file `convert_app_item` produces and,
      when both ids are free of ':', parses back into them. */
  lemma CreateAppIdentifierParses(names: map<string, string>, item: CloudAppItem)
    requires ':' !in ConvertAppItem(names, item).0 && ':' !in HubIdFor(names, item)
    ensures Parse(CreateAppIdentifier(names, item))
            == Ok(AppIdentifier(ConvertAppItem(names, item).0, HubIdFor(names, item)))
  {
    var id := AppIdentifier(ConvertAppItem(names, item).0, HubIdFor(names, item));
    ColonFreeSeparable(id.appId, id.hubId);
    ToStringParse(id);
  }

  /** An unmapped hub uuid is rendered as "unknown". */
  lemma UnmappedHubIsUnknown(names: map<string, string>, item: CloudAppItem)
    requires item.baseHubUuid !in names && item.uuid !in names
    ensures CreateAppIdentifier(names, item) == Slug(item.info.name) + "::" + "unknown"
  {
  }

  // ---------------------------------------------------------------------
  // The steps of sync_to_repo

  /** The table after the first loop of `sync_to_repo`: each hub's uuid
      is mapped to the slug of its name, in list order. */
  function RegisterHubs(names: map<string, string>, hubs: seq<CloudHubItem>): (r: map<string, string>)
    ensures names.Keys <= r.Keys
    ensures forall i :: 0 <= i < |hubs| ==> hubs[i].uuid in r
    decreases |hubs|
  {
    if |hubs| == 0 then names
    else
      var last := hubs[|hubs| - 1];
      RegisterHubs(names, hubs[..|hubs| - 1])[last.uuid := Slug(last.info.hubName)]
  }

  /** The table gains exactly the hub uuids: app uuids are never added. */
  lemma {:induction false} RegisterHubsKeys(names: map<string, string>, hubs: seq<CloudHubItem>, u: string)
    ensures u in RegisterHubs(names, hubs) <==> u in names || exists i :: 0 <= i < |hubs| && hubs[i].uuid == u
    decreases |hubs|
  {
    if |hubs| > 0 {
      var init := hubs[..|hubs| - 1];
      RegisterHubsKeys(names, init, u);
      if exists i :: 0 <= i < |hubs| && hubs[i].uuid == u {
        var i :| 0 <= i < |hubs| && hubs[i].uuid == u;
        if i < |init| {
          assert init[i].uuid == u;
        }
      }
    }
  }

  /** The last hub with a given uuid decides its entry. */
  lemma {:induction false} RegisterHubsLast(names: map<string, string>, hubs: seq<CloudHubItem>, i: nat)
    requires i < |hubs|
    requires forall j :: i < j < |hubs| ==> hubs[j].uuid != hubs[i].uuid
    ensures hubs[i].uuid in RegisterHubs(names, hubs)
    ensures RegisterHubs(names, hubs)[hubs[i].uuid] == Slug(hubs[i].info.hubName)
    decreases |hubs|
  {
    if i < |hubs| - 1 {
      var init := hubs[..|hubs| - 1];
      assert forall j :: i < j < |init| ==> init[j].uuid != init[i].uuid;
      RegisterHubsLast(names, init, i);
    }
  }

  /** Entries whose uuid no hub has are left as they were. */
  lemma {:induction false} RegisterHubsKeeps(names: map<string, string>, hubs: seq<CloudHubItem>, u: string)
    requires u in names
    requires forall j :: 0 <= j < |hubs| ==> hubs[j].uuid != u
    ensures u in RegisterHubs(names, hubs) && RegisterHubs(names, hubs)[u] == names[u]
    decreases |hubs|
  {
    if |hubs| > 0 {
      var init := hubs[..|hubs| - 1];
      assert forall j :: 0 <= j < |init| ==> init[j].uuid != u;
      RegisterHubsKeeps(names, init, u);
    }
  }

  /** After the table is built from hubs with distinct uuids, each hub's
      file and each app's hub reference use that hub's own slug. */
  lemma RegisteredHubIds(names: map<string, string>, hubs: seq<CloudHubItem>, i: nat, app: CloudAppItem)
    requires i < |hubs|
    requires forall j, k :: 0 <= j < k < |hubs| ==> hubs[j].uuid != hubs[k].uuid
    ensures ConvertHubItem(RegisterHubs(names, hubs), hubs[i]).0 == Slug(hubs[i].info.hubName)
    ensures app.baseHubUuid == hubs[i].uuid ==>
              HubIdFor(RegisterHubs(names, hubs), app) == Slug(hubs[i].info.hubName)
  {
    RegisterHubsLast(names, hubs, i);
  }

  /** Writes `<dir>/<kind>/<id>.json` for each entry in order. */
  function WriteEntries(files: map<FileKey, Json>, dir: string, kind: Kind, entries: seq<(string, Json)>)
    : map<FileKey, Json>
    decreases |entries|
  {
    if |entries| == 0 then files
    else
      var last := entries[|entries| - 1];
      WriteEntries(files, dir, kind, entries[..|entries| - 1])[FileKey(dir, kind, last.0) := last.1]
  }

  /** The last entry with a given id is the file's content. */
  lemma {:induction false} WriteEntriesLast(files: map<FileKey, Json>, dir: string, kind: Kind, entries: seq<(string, Json)>, i: nat)
    requires i < |entries|
    requires forall j :: i < j < |entries| ==> entries[j].0 != entries[i].0
    ensures FileKey(dir, kind, entries[i].0) in WriteEntries(files, dir, kind, entries)
    ensures WriteEntries(files, dir, kind, entries)[FileKey(dir, kind, entries[i].0)] == entries[i].1
    decreases |entries|
  {
    if i < |entries| - 1 {
      var init := entries[..|entries| - 1];
      assert forall j :: i < j < |init| ==> init[j].0 != init[i].0;
      WriteEntriesLast(files, dir, kind, init, i);
    }
  }

  /** Files of another directory or kind, and ids no entry has, are
      left as they were. */
  lemma {:induction false} WriteEntriesKeeps(files: map<FileKey, Json>, dir: string, kind: Kind, entries: seq<(string, Json)>, k: FileKey)
    requires k in files
    requires k.dir != dir || k.kind != kind || forall j :: 0 <= j < |entries| ==> entries[j].0 != k.id
    ensures k in WriteEntries(files, dir, kind, entries) && WriteEntries(files, dir, kind, entries)[k] == files[k]
    decreases |entries|
  {
    if |entries| > 0 {
      var init := entries[..|entries| - 1];
      assert k.dir != dir || k.kind != kind || forall j :: 0 <= j < |init| ==> init[j].0 != k.id;
      WriteEntriesKeeps(files, dir, kind, init, k);
    }
  }

  /** The hub files the second loop writes. */
  function HubEntries(names: map<string, string>, hubs: seq<CloudHubItem>): (r: seq<(string, Json)>)
    ensures |r| == |hubs|
    ensures forall i :: 0 <= i < |hubs| ==>
              r[i] == (ConvertHubItem(names, hubs[i]).0, HubConfigToJson(ConvertHubItem(names, hubs[i]).1))
  {
    seq(|hubs|, i requires 0 <= i < |hubs| =>
      (ConvertHubItem(names, hubs[i]).0, HubConfigToJson(ConvertHubItem(names, hubs[i]).1)))
  }

  /** The app files the third loop writes. */
  function AppEntries(names: map<string, string>, apps: seq<CloudAppItem>): (r: seq<(string, Json)>)
    ensures |r| == |apps|
    ensures forall i :: 0 <= i < |apps| ==>
              r[i] == (ConvertAppItem(names, apps[i]).0, AppConfigToJson(ConvertAppItem(names, apps[i]).1))
  {
    seq(|apps|, i requires 0 <= i < |apps| =>
      (ConvertAppItem(names, apps[i]).0, AppConfigToJson(ConvertAppItem(names, apps[i]).1)))
  }

  /** Two apps whose display names give the same id write the same file:
      the later one is what remains (there is no disambiguation). */
  lemma SameNameCollides(names: map<string, string>, files: map<FileKey, Json>, dir: string, a: CloudAppItem, b: CloudAppItem)
    requires a.uuid !in names && b.uuid !in names && Slug(a.info.name) == Slug(b.info.name)
    ensures WriteEntries(files, dir, Apps, AppEntries(names, [a, b]))[FileKey(dir, Apps, Slug(a.info.name))]
            == AppConfigToJson(ConvertAppItem(names, b).1)
  {
    var entries := AppEntries(names, [a, b]);
    assert entries[1].0 == Slug(a.info.name);
    WriteEntriesLast(files, dir, Apps, entries, 1);
  }

  /** Every app file `sync_to_repo` writes reads back, through the
      resolver's decoder, as the converted configuration. */
  lemma SyncedAppReadsBack(names: map<string, string>, files: map<FileKey, Json>, dir: string, apps: seq<CloudAppItem>, i: nat)
    requires i < |apps|
    requires forall j :: i < j < |apps| ==> ConvertAppItem(names, apps[j]).0 != ConvertAppItem(names, apps[i]).0
    ensures var written := WriteEntries(files, dir, Apps, AppEntries(names, apps));
            var key := FileKey(dir, Apps, ConvertAppItem(names, apps[i]).0);
            key in written && AppConfigFromJson(written[key]) == Ok(ConvertAppItem(names, apps[i]).1)
  {
    var entries := AppEntries(names, apps);
    assert forall j :: i < j < |entries| ==> entries[j].0 != entries[i].0;
    WriteEntriesLast(files, dir, Apps, entries, i);
  }

  // ---------------------------------------------------------------------
  // CloudSync

  class CloudSync {
    var cloudUrl: Option<string>
    var uuidToNameMap: map<string, string>

    /** `CloudSync::new`. */
    constructor()
      ensures cloudUrl == None && uuidToNameMap == map[]
    {
      cloudUrl := None;
      uuidToNameMap := map[];
    }

    /** `CloudSync::with_url`. */
    constructor WithUrl(url: string)
      ensures cloudUrl == Some(url) && uuidToNameMap == map[]
    {
      cloudUrl := Some(url);
      uuidToNameMap := map[];
    }

    /** `fetch_cloud_config`: the document the HTTP request returns is the
        parameter `fetched`. */
    method FetchCloudConfig(fetched: Result<CloudConfig>) returns (r: Result<CloudConfig>)
      ensures cloudUrl.None? ==> r == Err("No cloud URL configured")
      ensures cloudUrl.Some? ==> r == fetched
    {
      if cloudUrl.None? {
        return Err("No cloud URL configured");
      }
      r := fetched;
    }

    /** `sync_to_repo(<dir>)`: fetch, map every hub uuid to its slug, then
        write every hub file and every app file under `dir`. */
    method SyncToRepo(dir: string, fetched: Result<CloudConfig>, store: FileStore) returns (r: Result<()>)
      modifies this, store
      ensures cloudUrl == old(cloudUrl)
      ensures r.Ok? <==> cloudUrl.Some? && fetched.Ok?
      ensures cloudUrl.None? ==> r == Err("No cloud URL configured")
      ensures cloudUrl.Some? && fetched.Err? ==> r == Err(fetched.msg)
      ensures r.Err? ==> uuidToNameMap == old(uuidToNameMap) && store.files == old(store.files)
      ensures r.Ok? ==> uuidToNameMap == RegisterHubs(old(uuidToNameMap), fetched.value.hubConfigList)
      ensures r.Ok? ==>
                (store.files ==
                 WriteEntries(WriteEntries(old(store.files), dir, Hubs, HubEntries(uuidToNameMap, fetched.value.hubConfigList)),
                              dir, Apps, AppEntries(uuidToNameMap, fetched.value.appConfigList)))
      ensures store.appListText == old(store.appListText)
    {
      var config :- FetchCloudConfig(fetched);
      RegisterHubNames(config.hubConfigList);
      WriteAll(store, dir, Hubs, HubEntries(uuidToNameMap, config.hubConfigList));
      WriteAll(store, dir, Apps, AppEntries(uuidToNameMap, config.appConfigList));
      return Ok(());
    }

    /** The first loop of `sync_to_repo`. */
    method RegisterHubNames(hubs: seq<CloudHubItem>)
      modifies this
      ensures uuidToNameMap == RegisterHubs(old(uuidToNameMap), hubs)
      ensures cloudUrl == old(cloudUrl)
    {
      var i := 0;
      while i < |hubs|
        invariant 0 <= i <= |hubs|
        invariant uuidToNameMap == RegisterHubs(old(uuidToNameMap), hubs[..i])
        invariant cloudUrl == old(cloudUrl)
      {
        assert hubs[..i + 1][..i] == hubs[..i];
        uuidToNameMap := uuidToNameMap[hubs[i].uuid := Slug(hubs[i].info.hubName)];
        i := i + 1;
      }
      assert hubs[..i] == hubs;
    }
  }

  /** The second and third loops of `sync_to_repo`: one file per entry. */
  method WriteAll(store: FileStore, dir: string, kind: Kind, entries: seq<(string, Json)>)
    modifies store
    ensures store.files == WriteEntries(old(store.files), dir, kind, entries)
    ensures store.appListText == old(store.appListText)
  {
    var i := 0;
    while i < |entries|
      invariant 0 <= i <= |entries|
      invariant store.files == WriteEntries(old(store.files), dir, kind, entries[..i])
      invariant store.appListText == old(store.appListText)
    {
      assert entries[..i + 1][..i] == entries[..i];
      store.Write(FileKey(dir, kind, entries[i].0), entries[i].1);
      i := i + 1;
    }
    assert entries[..i] == entries;
  }

  // ---------------------------------------------------------------------
  // AppRegistry::sync_from_cloud / import_cloud_apps

  /** The files after a fresh `CloudSync` synced `config` into `repo/`:
      the hub names registered first, then every hub written, then every
      app. */
  function SyncedFiles(files: map<FileKey, Json>, config: CloudConfig): map<FileKey, Json> {
    var names := RegisterHubs(map[], config.hubConfigList);
    WriteEntries(WriteEntries(files, RepoDir, Hubs, HubEntries(names, config.hubConfigList)),
                 RepoDir, Apps, AppEntries(names, config.appConfigList))
  }

  /** `sync_from_cloud`: a fresh `CloudSync` syncs into the registry's
      `repo/` directory and the caches are dropped. */
  method SyncFromCloud(registry: AppRegistry, url: string, fetched: Result<CloudConfig>) returns (r: Result<()>)
    modifies registry, registry.store
    ensures r.Ok? <==> fetched.Ok?
    ensures fetched.Err? ==> r == Err(fetched.msg)
    ensures r.Err? ==> registry.store.files == old(registry.store.files)
    ensures r.Err? ==> registry.appsCache == old(registry.appsCache) && registry.hubsCache == old(registry.hubsCache)
    ensures r.Ok? ==> registry.store.files == SyncedFiles(old(registry.store.files), fetched.value)
    ensures r.Ok? ==> registry.appsCache == map[] && registry.hubsCache == map[]
    ensures registry.appList == old(registry.appList)
    ensures registry.store.appListText == old(registry.store.appListText)
  {
    var sync := new CloudSync.WithUrl(url);
    r := sync.SyncToRepo(RepoDir, fetched, registry.store);
    if r.Err? {
      return;
    }
    registry.ClearCache();
  }

  /** `import_cloud_apps` as written. The document is fetched twice, once
      here (`fetched`) and once inside `sync_from_cloud` (`refetched`).
      The identifiers are built by a
      `CloudSync` whose table was never filled, so every hub half is
      "unknown" whatever hub the app belongs to. */
  method ImportCloudAppsAsWritten(registry: AppRegistry, url: string, fetched: Result<CloudConfig>, refetched: Result<CloudConfig>)
    returns (r: Result<seq<string>>)
    requires registry.Valid()
    modifies registry, registry.store
    ensures r.Ok? <==> fetched.Ok? && refetched.Ok?
    ensures fetched.Err? ==> r == Err(fetched.msg)
    ensures fetched.Ok? && refetched.Err? ==> r == Err(refetched.msg)
    ensures r.Err? ==> registry.State() == old(registry.State()) && registry.store.files == old(registry.store.files)
                       && registry.store.appListText == old(registry.store.appListText)
    ensures r.Ok? ==> registry.store.files == SyncedFiles(old(registry.store.files), refetched.value)
    ensures r.Ok? ==> (r.value, registry.State())
                      == ImportFold(AddStep(registry.Repos(), registry.store.files), map[],
                                    fetched.value.appConfigList, RegistryState(old(registry.appList), map[], map[]))
    ensures r.Ok? ==> ListTextFollows(old(registry.appList), old(registry.store.appListText),
                                      registry.appList, registry.store.appListText)
    ensures r.Ok? ==> forall x :: x in r.value ==>
              x in registry.appList
              && (exists a :: a in fetched.value.appConfigList && x == CreateAppIdentifier(map[], a))
  {
    var sync := new CloudSync.WithUrl(url);
    var config :- sync.FetchCloudConfig(fetched);
    var _ :- SyncFromCloud(registry, url, refetched);
    var imported := ImportListed(registry, config.appConfigList, sync.uuidToNameMap);
    return Ok(imported);
  }

  /** The concrete case: one hub "Hub" with uuid "h" and one app of that
      hub. The synced hub file is `repo/hubs/hub.json`, yet the identifier
      the import builds names hub "unknown". */
  lemma ImportNamesUnknownHub()
    ensures var hub := CloudHubItem(1, 0, "h", CloudHubInfo("Hub", ""), "", [], []);
            var app := CloudAppItem(1, 0, "a", "h", CloudAppInfo("App", "", map[]));
            var names := RegisterHubs(map[], [hub]);
            var written := WriteEntries(map[], RepoDir, Hubs, HubEntries(names, [hub]));
            CreateAppIdentifier(map[], app) == "app" + "::" + "unknown"
            && FileKey(RepoDir, Hubs, "hub") in written
            && FileKey(RepoDir, Hubs, "unknown") !in written
  {
    var hub := CloudHubItem(1, 0, "h", CloudHubInfo("Hub", ""), "", [], []);
    var names := RegisterHubs(map[], [hub]);
    assert [hub][..0] == [];
    assert names == RegisterHubs(map[], [])["h" := Slug("Hub")];
    assert Slug("Hub") == "hub";
    assert Slug("App") == "app";
    assert names == map["h" := "hub"];
    var entries := HubEntries(names, [hub]);
    assert entries[0].0 == "hub";
    assert forall e :: e in entries ==> e.0 == "hub";
  }

  /** `import_cloud_apps` as evidently intended: the identifiers use the
      table the sync just built, so each names the hub file it wrote. */
  method ImportCloudApps(registry: AppRegistry, url: string, fetched: Result<CloudConfig>)
    returns (r: Result<seq<string>>)
    requires registry.Valid()
    modifies registry, registry.store
    ensures r.Ok? <==> fetched.Ok?
    ensures fetched.Err? ==> r == Err(fetched.msg)
    ensures r.Err? ==> registry.State() == old(registry.State()) && registry.store.files == old(registry.store.files)
                       && registry.store.appListText == old(registry.store.appListText)
    ensures r.Ok? ==> registry.store.files == SyncedFiles(old(registry.store.files), fetched.value)
    ensures r.Ok? ==> (r.value, registry.State())
                      == ImportFold(AddStep(registry.Repos(), registry.store.files),
                                    RegisterHubs(map[], fetched.value.hubConfigList),
                                    fetched.value.appConfigList, RegistryState(old(registry.appList), map[], map[]))
    ensures r.Ok? ==> ListTextFollows(old(registry.appList), old(registry.store.appListText),
                                      registry.appList, registry.store.appListText)
    ensures r.Ok? ==> forall x :: x in r.value ==>
              x in registry.appList
              && (exists a :: a in fetched.value.appConfigList
                    && x == CreateAppIdentifier(RegisterHubs(map[], fetched.value.hubConfigList), a))
  {
    var sync := new CloudSync.WithUrl(url);
    var _ :- sync.SyncToRepo(RepoDir, fetched, registry.store);
    registry.ClearCache();
    var imported := ImportListed(registry, fetched.value.appConfigList, sync.uuidToNameMap);
    return Ok(imported);
  }

  /** With the table built from hubs with distinct uuids, an app of hub
      `hubs[i]` is imported under that hub's slug. */
  lemma ImportNamesSyncedHub(hubs: seq<CloudHubItem>, i: nat, app: CloudAppItem)
    requires i < |hubs| && app.baseHubUuid == hubs[i].uuid
    requires forall j, k :: 0 <= j < k < |hubs| ==> hubs[j].uuid != hubs[k].uuid
    ensures CreateAppIdentifier(RegisterHubs(map[], hubs), app)
            == IdFor(RegisterHubs(map[], hubs), app.uuid, app.info.name) + "::" + Slug(hubs[i].info.hubName)
  {
    RegisteredHubIds(map[], hubs, i, app);
  }

  /** The loop of `import_cloud_apps` over `apps`, with `add` the
      registry's `add_app`: each app's identifier is added in list order
      and collected when it is accepted. */
  function ImportFold(add: (RegistryState, string) -> (Result<()>, RegistryState), names: map<string, string>,
                      apps: seq<CloudAppItem>, s: RegistryState): (seq<string>, RegistryState)
    decreases |apps|
  {
    if apps == [] then ([], s)
    else
      var prev := ImportFold(add, names, apps[..|apps| - 1], s);
      var identifier := CreateAppIdentifier(names, apps[|apps| - 1]);
      var step := add(prev.1, identifier);
      (if step.0.Ok? then prev.0 + [identifier] else prev.0, step.1)
  }

  /** At most one identifier per app is collected; each was built from one
      of the apps and is listed afterwards; and the list grows exactly by
      pushing the collected identifiers in order. */
  lemma {:induction false} ImportFoldLists(add: (RegistryState, string) -> (Result<()>, RegistryState),
                                           names: map<string, string>, apps: seq<CloudAppItem>, s: RegistryState)
    requires ListsAccepted(add)
    ensures var t := ImportFold(add, names, apps, s);
            && |t.0| <= |apps|
            && t.1.appList == PushAll(s.appList, t.0)
            && forall i :: 0 <= i < |t.0| ==>
                 t.0[i] in t.1.appList && exists a :: a in apps && t.0[i] == CreateAppIdentifier(names, a)
    decreases |apps|
  {
    if apps != [] {
      var init := apps[..|apps| - 1];
      var last := apps[|apps| - 1];
      ImportFoldLists(add, names, init, s);
      var prev := ImportFold(add, names, init, s);
      var identifier := CreateAppIdentifier(names, last);
      var t := ImportFold(add, names, apps, s);
      if add(prev.1, identifier).0.Ok? {
        assert t.0 == prev.0 + [identifier];
        assert t.0[..|t.0| - 1] == prev.0;
      }
      forall i | 0 <= i < |t.0|
        ensures exists a :: a in apps && t.0[i] == CreateAppIdentifier(names, a)
      {
        if i < |prev.0| {
          var a :| a in init && prev.0[i] == CreateAppIdentifier(names, a);
          assert a in apps;
        } else {
          assert last in apps;
        }
      }
    }
  }

  /** The saved `app_list` file after the list grew from `before` to
      `after`: untouched while nothing was appended, and otherwise the new
      list as saved by the last `add_app` that appended. */
  predicate ListTextFollows(before: seq<string>, beforeText: Option<string>, after: seq<string>, afterText: Option<string>) {
    before <= after
    && (after == before ==> afterText == beforeText)
    && (after != before ==> afterText == Some(AppListText(after)))
  }

  /** The loop of `import_cloud_apps`: each identifier whose `add_app`
      succeeds is collected, in order. */
  method ImportAll(registry: AppRegistry, apps: seq<CloudAppItem>, names: map<string, string>)
    returns (imported: seq<string>)
    requires registry.Valid()
    modifies registry, registry.store
    ensures registry.store.files == old(registry.store.files)
    ensures (imported, registry.State())
            == ImportFold(AddStep(registry.Repos(), registry.store.files), names, apps, old(registry.State()))
    ensures ListTextFollows(old(registry.appList), old(registry.store.appListText),
                            registry.appList, registry.store.appListText)
  {
    imported := [];
    for i := 0 to |apps|
      invariant registry.store.files == old(registry.store.files)
      invariant ListTextFollows(old(registry.appList), old(registry.store.appListText),
                                registry.appList, registry.store.appListText)
      invariant (imported, registry.State())
                == ImportFold(AddStep(registry.Repos(), registry.store.files), names, apps[..i], old(registry.State()))
    {
      var identifier := CreateAppIdentifier(names, apps[i]);
      ghost var before := registry.State();
      var added := registry.AddApp(identifier);
      assert (added, registry.State()) == AddStep(registry.Repos(), registry.store.files)(before, identifier);
      if added.Ok? {
        imported := imported + [identifier];
      }
      assert apps[..i + 1][..i] == apps[..i];
    }
    assert apps[..|apps|] == apps;
  }

  /** `ImportAll` with what its fold promises: every collected identifier
      was built from one of the apps and is listed afterwards. */
  method ImportListed(registry: AppRegistry, apps: seq<CloudAppItem>, names: map<string, string>)
    returns (imported: seq<string>)
    requires registry.Valid()
    modifies registry, registry.store
    ensures registry.store.files == old(registry.store.files)
    ensures (imported, registry.State())
            == ImportFold(AddStep(registry.Repos(), registry.store.files), names, apps, old(registry.State()))
    ensures ListTextFollows(old(registry.appList), old(registry.store.appListText),
                            registry.appList, registry.store.appListText)
    ensures forall x :: x in imported ==>
              x in registry.appList && exists a :: a in apps && x == CreateAppIdentifier(names, a)
  {
    ghost var before := registry.State();
    imported := ImportAll(registry, apps, names);
    AddStepListsAccepted(registry.Repos(), registry.store.files);
    ImportFoldLists(AddStep(registry.Repos(), registry.store.files), names, apps, before);
  }
}
