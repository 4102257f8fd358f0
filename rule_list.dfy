/** packages/getter-config/src/rule_list.rs: the tracked-app map and the
    app/hub name lists. The clock read by `SystemTime::now()` is the
    parameter `now` (seconds since the Unix epoch). */
module RuleList {
  import opened Wrappers
  import opened Collections

  datatype TrackedApp = TrackedApp(
    hubUuid: string,
    appData: map<string, string>,
    hubData: map<string, string>,
    currentVersion: Option<string>,
    addedAt: nat,
    lastChecked: Option<nat>)

  /** A freshly tracked app: no version seen, never checked. */
  function NewTrackedApp(hubUuid: string, appData: map<string, string>, hubData: map<string, string>, now: nat)
    : (t: TrackedApp)
    ensures t.currentVersion.None? && t.lastChecked.None? && t.addedAt == now
    ensures t.hubUuid == hubUuid && t.appData == appData && t.hubData == hubData
  {
    TrackedApp(hubUuid, appData, hubData, None, now, None)
  }

  /** The entry after `update_tracked_app_version`. */
  function WithVersion(t: TrackedApp, version: string, now: nat): (u: TrackedApp)
    ensures u.currentVersion == Some(version) && u.lastChecked == Some(now)
    ensures u.hubUuid == t.hubUuid && u.appData == t.appData && u.hubData == t.hubData
    ensures u.addedAt == t.addedAt
  {
    t.(currentVersion := Some(version), lastChecked := Some(now))
  }

  class RuleList {
    var appList: seq<string>
    var hubList: seq<string>
    var trackedApps: map<string, TrackedApp>

    /** `RuleList::new` (and `Default`). */
    constructor()
      ensures appList == [] && hubList == [] && trackedApps == map[]
    {
      appList := [];
      hubList := [];
      trackedApps := map[];
    }

    /** Inserts a fresh entry, replacing any existing one; true iff the id
        was not tracked before. */
    method AddTrackedApp(appId: string, hubUuid: string, appData: map<string, string>,
                         hubData: map<string, string>, now: nat) returns (added: bool)
      modifies this
      ensures added <==> appId !in old(trackedApps)
      ensures trackedApps == old(trackedApps)[appId := NewTrackedApp(hubUuid, appData, hubData, now)]
      ensures |trackedApps| == if added then |old(trackedApps)| + 1 else |old(trackedApps)|
      ensures appList == old(appList) && hubList == old(hubList)
    {
      added := appId !in trackedApps;
      trackedApps := trackedApps[appId := NewTrackedApp(hubUuid, appData, hubData, now)];
    }

    /** Sets the version and the check time of a tracked id; false and no
        change for an untracked one. */
    method UpdateTrackedAppVersion(appId: string, version: string, now: nat) returns (updated: bool)
      modifies this
      ensures updated <==> appId in old(trackedApps)
      ensures updated ==> trackedApps == old(trackedApps)[appId := WithVersion(old(trackedApps)[appId], version, now)]
      ensures !updated ==> trackedApps == old(trackedApps)
      ensures appList == old(appList) && hubList == old(hubList)
    {
      if appId in trackedApps {
        trackedApps := trackedApps[appId := WithVersion(trackedApps[appId], version, now)];
        updated := true;
      } else {
        updated := false;
      }
    }

    /** Drops the entry; true iff there was one. */
    method RemoveTrackedApp(appId: string) returns (removed: bool)
      modifies this
      ensures removed <==> appId in old(trackedApps)
      ensures trackedApps == old(trackedApps) - {appId}
      ensures appList == old(appList) && hubList == old(hubList)
    {
      removed := appId in trackedApps;
      trackedApps := trackedApps - {appId};
    }

    function GetTrackedApp(appId: string): (r: Option<TrackedApp>)
      reads this
      ensures r.Some? <==> appId in trackedApps
      ensures r.Some? ==> r.value == trackedApps[appId]
    {
      if appId in trackedApps then Some(trackedApps[appId]) else None
    }

    /** One pair per tracked id. */
    method ListTrackedApps() returns (r: seq<(string, TrackedApp)>)
      ensures |r| == |trackedApps|
      ensures forall id :: id in trackedApps ==> (id, trackedApps[id]) in r
      ensures forall e :: e in r ==> e.0 in trackedApps && trackedApps[e.0] == e.1
    {
      r := MapEntries(trackedApps);
    }

    method PushApp(appName: string) returns (pushed: bool)
      modifies this
      ensures pushed <==> appName !in old(appList)
      ensures appList == PushAbsent(old(appList), appName)
      ensures hubList == old(hubList) && trackedApps == old(trackedApps)
    {
      if appName in appList {
        pushed := false;
      } else {
        appList := appList + [appName];
        pushed := true;
      }
    }

    method RemoveApp(appName: string) returns (removed: bool)
      modifies this
      ensures removed <==> appName in old(appList)
      ensures appList == RemoveFirst(old(appList), appName)
      ensures hubList == old(hubList) && trackedApps == old(trackedApps)
    {
      match Position(appList, appName)
      case None =>
        removed := false;
      case Some(i) =>
        appList := appList[..i] + appList[i + 1..];
        removed := true;
    }

    method PushHub(hubName: string) returns (pushed: bool)
      modifies this
      ensures pushed <==> hubName !in old(hubList)
      ensures hubList == PushAbsent(old(hubList), hubName)
      ensures appList == old(appList) && trackedApps == old(trackedApps)
    {
      if hubName in hubList {
        pushed := false;
      } else {
        hubList := hubList + [hubName];
        pushed := true;
      }
    }

    method RemoveHub(hubName: string) returns (removed: bool)
      modifies this
      ensures removed <==> hubName in old(hubList)
      ensures hubList == RemoveFirst(old(hubList), hubName)
      ensures appList == old(appList) && trackedApps == old(trackedApps)
    {
      match Position(hubList, hubName)
      case None =>
        removed := false;
      case Some(i) =>
        hubList := hubList[..i] + hubList[i + 1..];
        removed := true;
    }
  }

  /** A duplicate add returns false yet replaces the earlier entry: its
      version and check time are lost. */
  lemma DuplicateAddResets(tracked: map<string, TrackedApp>, appId: string, hubUuid: string,
                           appData: map<string, string>, hubData: map<string, string>, now: nat)
    requires appId in tracked && tracked[appId].currentVersion.Some?
    ensures var after := tracked[appId := NewTrackedApp(hubUuid, appData, hubData, now)];
            |after| == |tracked| && after[appId].currentVersion.None? && after[appId] != tracked[appId]
  {
    assert tracked.Keys + {appId} == tracked.Keys;
  }
}
