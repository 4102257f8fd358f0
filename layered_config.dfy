/** packages/getter-config/src/layered_config.rs: the app registry plus a
    per-identifier tracking map (versions and check times). The clock is
    the parameter `now`; the `tracking.json` file is not modelled. */
module LayeredConfig {
  import opened Wrappers
  import opened Collections
  import opened JsonValues
  import opened FileSystem
  import opened AppRegistry

  datatype AppTrackingInfo = AppTrackingInfo(
    currentVersion: Option<string>,
    latestVersion: Option<string>,
    lastChecked: Option<nat>,
    addedAt: nat)

  /** The entry `add_tracked_app` creates. */
  function NewTracking(now: nat): AppTrackingInfo {
    AppTrackingInfo(None, None, None, now)
  }

  /** `update_version` on one entry: each supplied version replaces the
      stored one, an absent one keeps it; the check time is always set. */
  function UpdatedInfo(info: AppTrackingInfo, current: Option<string>, latest: Option<string>, now: nat)
    : (u: AppTrackingInfo)
    ensures current.Some? ==> u.currentVersion == current
    ensures current.None? ==> u.currentVersion == info.currentVersion
    ensures latest.Some? ==> u.latestVersion == latest
    ensures latest.None? ==> u.latestVersion == info.latestVersion
    ensures u.lastChecked == Some(now) && u.addedAt == info.addedAt
  {
    var withCurrent := if current.Some? then info.(currentVersion := current) else info;
    var withLatest := if latest.Some? then withCurrent.(latestVersion := latest) else withCurrent;
    withLatest.(lastChecked := Some(now))
  }

  /** Both versions known and different as strings. */
  predicate Outdated(info: AppTrackingInfo) {
    match (info.currentVersion, info.latestVersion)
    case (Some(current), Some(latest)) => current != latest
    case _ => false
  }

  /** Supplying both versions makes the entry outdated exactly when they
      differ. */
  lemma UpdateBothOutdated(info: AppTrackingInfo, current: string, latest: string, now: nat)
    ensures Outdated(UpdatedInfo(info, Some(current), Some(latest), now)) <==> current != latest
  {
  }

  /** `get_outdated_apps`: the outdated entries, as a map since the
      `HashMap` iteration order is unspecified. */
  function OutdatedApps(tracking: map<string, AppTrackingInfo>): (r: map<string, AppTrackingInfo>)
    ensures forall id :: id in r <==> id in tracking && Outdated(tracking[id])
    ensures forall id :: id in r ==> r[id] == tracking[id]
  {
    map id | id in tracking && Outdated(tracking[id]) :: tracking[id]
  }

  /** The files after the supplied configurations are written to the local
      `config/` layer. */
  function SavedConfigs(files: map<FileKey, Json>, id: AppIdentifier,
                        appConfig: Option<AppConfig>, hubConfig: Option<HubConfig>): (r: map<FileKey, Json>)
    ensures appConfig.Some? ==> FileKey(ConfigDir, Apps, id.appId) in r && r[FileKey(ConfigDir, Apps, id.appId)] == AppConfigToJson(appConfig.value)
    ensures hubConfig.Some? ==> FileKey(ConfigDir, Hubs, id.hubId) in r && r[FileKey(ConfigDir, Hubs, id.hubId)] == HubConfigToJson(hubConfig.value)
    ensures r.Keys == files.Keys + (if appConfig.Some? then {FileKey(ConfigDir, Apps, id.appId)} else {})
                                 + (if hubConfig.Some? then {FileKey(ConfigDir, Hubs, id.hubId)} else {})
    ensures forall k :: k in files && (appConfig.None? || k != FileKey(ConfigDir, Apps, id.appId))
                                   && (hubConfig.None? || k != FileKey(ConfigDir, Hubs, id.hubId))
                        ==> r[k] == files[k]
  {
    var withApp := if appConfig.Some? then files[FileKey(ConfigDir, Apps, id.appId) := AppConfigToJson(appConfig.value)] else files;
    if hubConfig.Some? then withApp[FileKey(ConfigDir, Hubs, id.hubId) := HubConfigToJson(hubConfig.value)] else withApp
  }

  class LayeredConfig {
    const registry: AppRegistry
    var tracking: map<string, AppTrackingInfo>

    /** `LayeredConfig::new`, with the tracking map as read from disk. */
    constructor(registry: AppRegistry, tracking: map<string, AppTrackingInfo>)
      ensures this.registry == registry && this.tracking == tracking
    {
      this.registry := registry;
      this.tracking := tracking;
    }

    /** Rejects a malformed identifier before any change; otherwise writes
        the supplied configurations to `config/` first (they stay even if
        the registry then refuses the app), adds the app to the registry,
        and creates a tracking entry only for a new identifier. */
    method AddTrackedApp(identifier: string, appConfig: Option<AppConfig>, hubConfig: Option<HubConfig>, now: nat)
      returns (r: Result<()>)
      requires registry.Valid()
      modifies this, registry, registry.store
      ensures Parse(identifier).Err? ==>
                r == Err(Parse(identifier).msg) && tracking == old(tracking)
                && registry.store.files == old(registry.store.files) && registry.State() == old(registry.State())
      ensures Parse(identifier).Ok? ==>
                registry.store.files == SavedConfigs(old(registry.store.files), Parse(identifier).value, appConfig, hubConfig)
      ensures Parse(identifier).Ok? ==>
                (r, registry.State()) == Added(registry.Repos(), registry.store.files, old(registry.State()), identifier)
      ensures r.Err? ==> registry.appList == old(registry.appList)
      ensures r.Ok? ==> tracking == if identifier in old(tracking) then old(tracking)
                                    else old(tracking)[identifier := NewTracking(now)]
      ensures r.Err? ==> tracking == old(tracking)
    {
      var parsed := Parse(identifier);
      if parsed.Err? {
        return Err(parsed.msg);
      }
      SaveSupplied(parsed.value, appConfig, hubConfig);
      r := Track(identifier, now);
    }

    /** The registry's `add_app`, then a tracking entry for a new identifier
        when it succeeds. */
    method Track(identifier: string, now: nat) returns (r: Result<()>)
      requires registry.Valid()
      modifies this, registry, registry.store
      ensures registry.store.files == old(registry.store.files)
      ensures (r, registry.State()) == Added(registry.Repos(), registry.store.files, old(registry.State()), identifier)
      ensures r.Err? ==> registry.appList == old(registry.appList)
      ensures tracking == if r.Ok? && identifier !in old(tracking) then old(tracking)[identifier := NewTracking(now)]
                          else old(tracking)
    {
      r := registry.AddApp(identifier);
      RecordTracking(identifier, r.Ok?, now);
    }

    /** A tracking entry for an accepted identifier that has none yet. */
    method RecordTracking(identifier: string, accepted: bool, now: nat)
      modifies this
      ensures tracking == if accepted && identifier !in old(tracking) then old(tracking)[identifier := NewTracking(now)]
                          else old(tracking)
    {
      if accepted && identifier !in tracking {
        tracking := tracking[identifier := NewTracking(now)];
      }
    }

    /** The configuration writes of `add_tracked_app`, to the local layer. */
    method SaveSupplied(id: AppIdentifier, appConfig: Option<AppConfig>, hubConfig: Option<HubConfig>)
      modifies registry.store
      ensures registry.store.files == SavedConfigs(old(registry.store.files), id, appConfig, hubConfig)
      ensures registry.store.appListText == old(registry.store.appListText)
    {
      if appConfig.Some? {
        registry.SaveAppConfig(id.appId, appConfig.value, false);
      }
      if hubConfig.Some? {
        registry.SaveHubConfig(id.hubId, hubConfig.value, false);
      }
    }

    /** Unlists the identifier; the tracking entry goes only when the
        registry reports a removal. */
    method RemoveTrackedApp(identifier: string) returns (r: Result<bool>)
      modifies this, registry, registry.store
      ensures r == Ok(identifier in old(registry.appList))
      ensures registry.appList == RemoveFirst(old(registry.appList), identifier)
      ensures tracking == if r.value then old(tracking) - {identifier} else old(tracking)
      ensures r.value ==> registry.store.appListText == Some(AppListText(registry.appList))
      ensures !r.value ==> registry.store.appListText == old(registry.store.appListText)
      ensures registry.store.files == old(registry.store.files)
      ensures registry.appsCache == old(registry.appsCache) && registry.hubsCache == old(registry.hubsCache)
    {
      var removed := registry.RemoveApp(identifier);
      if removed {
        tracking := tracking - {identifier};
      }
      r := Ok(removed);
    }

    /** `list_tracked_apps` is the registry's list. */
    function ListTrackedApps(): (r: seq<string>)
      reads this, registry, registry.store
      ensures (forall i :: 0 <= i < |r| ==> CleanEntry(r[i]))
              && registry.store.appListText == Some(AppListText(registry.appList))
              ==> ParseAppList(registry.store.appListText.value) == r
    {
      registry.ListApps()
    }

    /** The entry of a tracked identifier, none for any other. */
    function GetTrackingInfo(identifier: string): (r: Option<AppTrackingInfo>)
      reads this
      ensures r.Some? <==> identifier in tracking
      ensures r.Some? ==> r.value == tracking[identifier]
    {
      if identifier in tracking then Some(tracking[identifier]) else None
    }

    /** Updates a tracked entry; an untracked identifier is an `Ok` no-op. */
    method UpdateVersion(identifier: string, current: Option<string>, latest: Option<string>, now: nat)
      returns (r: Result<()>)
      modifies this
      ensures r.Ok?
      ensures identifier in old(tracking) ==>
                tracking == old(tracking)[identifier := UpdatedInfo(old(tracking)[identifier], current, latest, now)]
      ensures identifier !in old(tracking) ==> tracking == old(tracking)
    {
      if identifier in tracking {
        tracking := tracking[identifier := UpdatedInfo(tracking[identifier], current, latest, now)];
      }
      r := Ok(());
    }

    /** The tracked entries whose two known versions differ, with their
        entries. */
    function GetOutdatedApps(): (r: map<string, AppTrackingInfo>)
      reads this
      ensures forall id :: id in r <==> id in tracking && Outdated(tracking[id])
      ensures forall id :: id in r ==> r[id] == tracking[id]
    {
      OutdatedApps(tracking)
    }
  }
}
