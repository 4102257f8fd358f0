/** packages/getter-appmanager/src/status_tracker.rs: the app manager's own,
    simpler status map. Its `AppStatus` comes from
    packages/getter-appmanager/src/app_status.rs, which is not part of this
    model; the six-variant enum of src/core/app_status.rs stands in for it.
    The clock is the parameter `now` (seconds since the Unix epoch). */
module ManagerStatusTracker {
  import opened Wrappers
  import opened Collections
  import opened AppStatuses

  datatype AppStatusInfo = AppStatusInfo(
    appId: string,
    status: AppStatus,
    currentVersion: Option<string>,
    latestVersion: Option<string>,
    lastChecked: Option<nat>)

  /** The record `add_app` installs. */
  function Fresh(appId: string): (info: AppStatusInfo)
    ensures info.appId == appId && !IsActive(info.status)
    ensures info.currentVersion.None? && info.latestVersion.None? && info.lastChecked.None?
  {
    AppStatusInfo(appId, AppInactive, None, None, None)
  }

  /** `update_status` on one record: the status and the check time. */
  function WithStatus(info: AppStatusInfo, status: AppStatus, now: nat): (u: AppStatusInfo)
    ensures u.status == status && u.lastChecked == Some(now)
    ensures u.appId == info.appId && u.currentVersion == info.currentVersion && u.latestVersion == info.latestVersion
  {
    info.(status := status, lastChecked := Some(now))
  }

  /** `set_versions` on one record: both versions, `None` included. */
  function WithVersions(info: AppStatusInfo, current: Option<string>, latest: Option<string>): (u: AppStatusInfo)
    ensures u.currentVersion == current && u.latestVersion == latest
    ensures u.appId == info.appId && u.status == info.status && u.lastChecked == info.lastChecked
  {
    info.(currentVersion := current, latestVersion := latest)
  }

  /** The two updates touch disjoint fields, so their order does not
      matter. */
  lemma UpdatesCommute(info: AppStatusInfo, status: AppStatus, now: nat, current: Option<string>, latest: Option<string>)
    ensures WithVersions(WithStatus(info, status, now), current, latest)
            == WithStatus(WithVersions(info, current, latest), status, now)
  {
  }

  class StatusTracker {
    var statuses: map<string, AppStatusInfo>

    /** Every record sits under its own app id. */
    ghost predicate Valid()
      reads this
    {
      forall id :: id in statuses ==> statuses[id].appId == id
    }

    constructor()
      ensures Valid() && statuses == map[]
    {
      statuses := map[];
    }

    /** Installs a fresh record, replacing any earlier one. */
    method AddApp(appId: string)
      requires Valid()
      modifies this
      ensures Valid()
      ensures statuses == old(statuses)[appId := Fresh(appId)]
    {
      statuses := statuses[appId := Fresh(appId)];
    }

    method RemoveApp(appId: string)
      requires Valid()
      modifies this
      ensures Valid()
      ensures statuses == old(statuses) - {appId}
      ensures GetStatus(appId).None?
    {
      statuses := statuses - {appId};
    }

    /** Sets the status and the check time of a tracked app; an unknown id
        is left alone. */
    method UpdateStatus(appId: string, status: AppStatus, now: nat)
      requires Valid()
      modifies this
      ensures Valid()
      ensures statuses == if appId in old(statuses)
                          then old(statuses)[appId := WithStatus(old(statuses)[appId], status, now)]
                          else old(statuses)
    {
      if appId in statuses {
        statuses := statuses[appId := WithStatus(statuses[appId], status, now)];
      }
    }

    /** Overwrites both versions of a tracked app; the status stays. */
    method SetVersions(appId: string, current: Option<string>, latest: Option<string>)
      requires Valid()
      modifies this
      ensures Valid()
      ensures statuses == if appId in old(statuses)
                          then old(statuses)[appId := WithVersions(old(statuses)[appId], current, latest)]
                          else old(statuses)
    {
      if appId in statuses {
        statuses := statuses[appId := WithVersions(statuses[appId], current, latest)];
      }
    }

    function GetStatus(appId: string): (r: Option<AppStatusInfo>)
      reads this
      ensures r.Some? <==> appId in statuses
      ensures r.Some? ==> r.value == statuses[appId]
      ensures Valid() && r.Some? ==> r.value.appId == appId
    {
      if appId in statuses then Some(statuses[appId]) else None
    }

    /** One record per tracked app, in the map's (unspecified) order. */
    method GetAllStatuses() returns (r: seq<AppStatusInfo>)
      requires Valid()
      ensures |r| == |statuses|
      ensures forall id :: id in statuses ==> statuses[id] in r
      ensures forall info :: info in r ==> info.appId in statuses && statuses[info.appId] == info
      ensures forall i, j :: 0 <= i < j < |r| ==> r[i].appId != r[j].appId
    {
      var entries := MapEntries(statuses);
      r := seq(|entries|, i requires 0 <= i < |entries| => entries[i].1);
      forall id | id in statuses
        ensures statuses[id] in r
      {
        var i :| 0 <= i < |entries| && entries[i] == (id, statuses[id]);
        assert r[i] == statuses[id];
      }
      forall i, j | 0 <= i < j < |r|
        ensures r[i].appId != r[j].appId
      {
        assert r[i].appId == entries[i].0 && r[j].appId == entries[j].0;
      }
    }
  }
}
