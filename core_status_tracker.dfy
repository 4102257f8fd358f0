/** src/core/status_tracker.rs: one status record per tracked app, kept in
    a map keyed by app id. The clock is the parameter `now`; the lock
    around the map is not modelled (every method runs with it held). */
module CoreStatusTracker {
  import opened Wrappers
  import opened Collections
  import opened AppStatuses
  import opened Releases

  datatype Ordering = Less | Equal | Greater

  /** `Version::partial_cmp` (a regular expression plus libversion) is not
      part of this model: it is this parameter, which answers `None` when
      either string holds no valid version. */
  type Comparator = (string, string) -> Option<Ordering>

  datatype AppStatusInfo = AppStatusInfo(
    appId: string,
    status: AppStatus,
    localVersion: Option<string>,
    latestVersion: Option<string>,
    lastChecked: Option<nat>,
    errorMessage: Option<string>)

  /** `AppStatusInfo::new`: inactive, nothing known, no error. */
  function NewInfo(appId: string): (info: AppStatusInfo)
    ensures info.appId == appId && !IsActive(info.status)
    ensures info.localVersion.None? && info.latestVersion.None?
    ensures info.lastChecked.None? && info.errorMessage.None?
  {
    AppStatusInfo(appId, AppInactive, None, None, None, None)
  }

  /** `calculate_status`, characterised status by status. */
  function CalculateStatus(local: Option<string>, latest: Option<string>, compare: Comparator): (s: AppStatus)
    ensures s == AppInactive <==> local.None? && latest.None?
    ensures s == AppNoLocal <==> local.None? && latest.Some?
    ensures s == AppOutdated <==> local.Some? && latest.Some? && compare(local.value, latest.value) == Some(Less)
    ensures s == AppLatest <==> local.Some? && latest.Some?
                                && compare(local.value, latest.value) in {Some(Equal), Some(Greater)}
    ensures s == NetworkError <==> local.Some? && (latest.None? || compare(local.value, latest.value).None?)
    ensures s != AppPending
  {
    match (local, latest)
    case (None, None) => AppInactive
    case (None, Some(_)) => AppNoLocal
    case (Some(_), None) => NetworkError
    case (Some(l), Some(r)) =>
      match compare(l, r)
      case Some(Less) => AppOutdated
      case Some(Equal) => AppLatest
      case Some(Greater) => AppLatest
      case None => NetworkError
  }

  /** A fresh record already carries the status its versions imply. */
  lemma NewInfoConsistent(appId: string, compare: Comparator)
    ensures NewInfo(appId).status == CalculateStatus(None, None, compare)
  {
  }

  /** `update_with_release`: the check time is set and the error cleared;
      a release supplies the latest version and the status is recomputed,
      its absence is a network error. */
  function WithRelease(info: AppStatusInfo, release: Option<ReleaseData>, now: nat, compare: Comparator)
    : (u: AppStatusInfo)
    ensures u.appId == info.appId && u.localVersion == info.localVersion && u.lastChecked == Some(now)
    ensures release.Some? ==> u.latestVersion == Some(release.value.versionNumber) && u.errorMessage.None?
                              && u.status == CalculateStatus(info.localVersion, u.latestVersion, compare)
    ensures release.None? ==> u.latestVersion == info.latestVersion && u.status == NetworkError
                              && u.errorMessage == Some("No release data available")
  {
    var checked := info.(lastChecked := Some(now), errorMessage := None);
    match release
    case Some(r) =>
      var withLatest := checked.(latestVersion := Some(r.versionNumber));
      withLatest.(status := CalculateStatus(withLatest.localVersion, withLatest.latestVersion, compare))
    case None =>
      checked.(status := NetworkError, errorMessage := Some("No release data available"))
  }

  /** With a release in hand the app is always active. */
  lemma ReleaseActivates(info: AppStatusInfo, release: ReleaseData, now: nat, compare: Comparator)
    ensures IsActive(WithRelease(info, Some(release), now, compare).status)
    ensures WithRelease(info, Some(release), now, compare).status == AppNoLocal <==> info.localVersion.None?
  {
  }

  /** `update_with_error`: a network error with its message; the versions
      stay. */
  function WithError(info: AppStatusInfo, error: string, now: nat): (u: AppStatusInfo)
    ensures u.status == NetworkError && HasError(u.status) && u.errorMessage == Some(error)
    ensures u.lastChecked == Some(now)
    ensures u.appId == info.appId && u.localVersion == info.localVersion && u.latestVersion == info.latestVersion
  {
    info.(lastChecked := Some(now), status := NetworkError, errorMessage := Some(error))
  }

  /** `set_local_version`: the status is recomputed; the error message and
      the check time are left as they were. */
  function WithLocalVersion(info: AppStatusInfo, version: Option<string>, compare: Comparator): (u: AppStatusInfo)
    ensures u.localVersion == version && u.status == CalculateStatus(version, info.latestVersion, compare)
    ensures u.appId == info.appId && u.latestVersion == info.latestVersion
    ensures u.lastChecked == info.lastChecked && u.errorMessage == info.errorMessage
  {
    var withLocal := info.(localVersion := version);
    withLocal.(status := CalculateStatus(withLocal.localVersion, withLocal.latestVersion, compare))
  }

  /** `set_pending`: checking, with the error cleared. */
  function Pending(info: AppStatusInfo): (u: AppStatusInfo)
    ensures IsPending(u.status) && u.errorMessage.None?
    ensures u.appId == info.appId && u.localVersion == info.localVersion
    ensures u.latestVersion == info.latestVersion && u.lastChecked == info.lastChecked
  {
    info.(status := AppPending, errorMessage := None)
  }

  /** A stored error message goes with a network-error status. */
  predicate ErrorExplained(info: AppStatusInfo) {
    info.errorMessage.Some? ==> HasError(info.status)
  }

  /** The release, error and pending updates keep an error message only
      alongside a network error. */
  lemma UpdatesExplainErrors(info: AppStatusInfo, release: Option<ReleaseData>, error: string, now: nat, compare: Comparator)
    ensures ErrorExplained(NewInfo(info.appId))
    ensures ErrorExplained(WithRelease(info, release, now, compare))
    ensures ErrorExplained(WithError(info, error, now))
    ensures ErrorExplained(Pending(info))
  {
  }

  /** `set_local_version` does not clear the message: after an error, a
      local version equal to the latest one gives `AppLatest` while the old
      error text is still stored. */
  lemma LocalVersionKeepsStaleError()
    ensures var compare: Comparator := (a, b) => if a == b then Some(Equal) else None;
            var failed := WithError(WithRelease(NewInfo("app"), Some(ReleaseData("1", "", [], None)), 0, compare), "timeout", 1);
            var after := WithLocalVersion(failed, Some("1"), compare);
            IsLatest(after.status) && !ErrorExplained(after)
  {
    var compare: Comparator := (a, b) => if a == b then Some(Equal) else None;
    var released := WithRelease(NewInfo("app"), Some(ReleaseData("1", "", [], None)), 0, compare);
    assert released.latestVersion == Some("1");
    var failed := WithError(released, "timeout", 1);
    assert compare("1", "1") == Some(Equal);
  }

  /** No app id occurs twice. */
  predicate DistinctIds(infos: seq<AppStatusInfo>) {
    forall i, j :: 0 <= i < j < |infos| ==> infos[i].appId != infos[j].appId
  }

  /** `.filter(|info| info.status == status)`, order kept. */
  function FilterStatus(infos: seq<AppStatusInfo>, status: AppStatus): (r: seq<AppStatusInfo>)
    ensures forall info :: info in r <==> info in infos && info.status == status
    ensures |r| <= |infos|
  {
    if infos == [] then []
    else (if infos[0].status == status then [infos[0]] else []) + FilterStatus(infos[1..], status)
  }

  /** Filtering keeps app ids distinct. */
  lemma {:induction false} FilterDistinct(infos: seq<AppStatusInfo>, status: AppStatus)
    requires DistinctIds(infos)
    ensures DistinctIds(FilterStatus(infos, status))
  {
    if infos != [] {
      var tail := infos[1..];
      assert DistinctIds(tail) by {
        forall i, j | 0 <= i < j < |tail|
          ensures tail[i].appId != tail[j].appId
        {
          assert tail[i] == infos[i + 1] && tail[j] == infos[j + 1];
        }
      }
      FilterDistinct(tail, status);
      var rest := FilterStatus(tail, status);
      forall x | x in rest
        ensures x.appId != infos[0].appId
      {
        var k :| 0 <= k < |tail| && tail[k] == x;
        assert x == infos[k + 1];
      }
    }
  }

  /** The tracked ids among `done` whose status is `s`. */
  function IdsAmong(statuses: map<string, AppStatusInfo>, done: set<string>, s: AppStatus): (r: set<string>)
    ensures r <= done
    ensures forall id :: id in r <==> id in done && id in statuses && statuses[id].status == s
  {
    set id | id in done && id in statuses && statuses[id].status == s
  }

  /** All tracked ids whose status is `s`. */
  function IdsWith(statuses: map<string, AppStatusInfo>, s: AppStatus): set<string> {
    IdsAmong(statuses, statuses.Keys, s)
  }

  /** Visiting one more id adds it to the set of its own status only. */
  lemma AmongStep(statuses: map<string, AppStatusInfo>, done: set<string>, id: string)
    requires id in statuses && id !in done
    ensures forall s :: |IdsAmong(statuses, done + {id}, s)|
                        == if statuses[id].status == s then |IdsAmong(statuses, done, s)| + 1
                           else |IdsAmong(statuses, done, s)|
  {
    forall s
      ensures |IdsAmong(statuses, done + {id}, s)|
              == if statuses[id].status == s then |IdsAmong(statuses, done, s)| + 1
                 else |IdsAmong(statuses, done, s)|
    {
      if statuses[id].status == s {
        assert IdsAmong(statuses, done + {id}, s) == IdsAmong(statuses, done, s) + {id};
      } else {
        assert IdsAmong(statuses, done + {id}, s) == IdsAmong(statuses, done, s);
      }
    }
  }

  /** Counting one more id keeps the counts in step with the visited ids. */
  lemma CountStep(statuses: map<string, AppStatusInfo>, done: set<string>, counts: map<AppStatus, nat>, id: string)
    requires id in statuses && id !in done
    requires forall s :: CountOf(counts, s) == |IdsAmong(statuses, done, s)|
    requires forall s :: s in counts ==> counts[s] > 0
    ensures var next := counts[statuses[id].status := CountOf(counts, statuses[id].status) + 1];
            (forall s :: CountOf(next, s) == |IdsAmong(statuses, done + {id}, s)|)
            && (forall s :: s in next ==> next[s] > 0)
  {
    AmongStep(statuses, done, id);
  }

  /** The per-status sizes of `done`, added up over the six statuses. */
  function AmongTotal(statuses: map<string, AppStatusInfo>, done: set<string>): nat {
    |IdsAmong(statuses, done, AppInactive)| + |IdsAmong(statuses, done, AppPending)|
    + |IdsAmong(statuses, done, NetworkError)| + |IdsAmong(statuses, done, AppLatest)|
    + |IdsAmong(statuses, done, AppOutdated)| + |IdsAmong(statuses, done, AppNoLocal)|
  }

  /** Every tracked id has exactly one status, so the sets by status
      partition the ids. */
  lemma {:induction false} AmongPartition(statuses: map<string, AppStatusInfo>, done: set<string>)
    requires done <= statuses.Keys
    ensures AmongTotal(statuses, done) == |done|
    decreases done
  {
    if done == {} {
      assert AmongTotal(statuses, done) == 0 by {
        EmptyAmong(statuses, done, AppInactive);
        EmptyAmong(statuses, done, AppPending);
        EmptyAmong(statuses, done, NetworkError);
        EmptyAmong(statuses, done, AppLatest);
        EmptyAmong(statuses, done, AppOutdated);
        EmptyAmong(statuses, done, AppNoLocal);
      }
    } else {
      var id :| id in done;
      var rest := done - {id};
      assert rest + {id} == done;
      AmongPartition(statuses, rest);
      AmongTotalStep(statuses, rest, id);
    }
  }

  /** One more visited id adds one to the total. */
  lemma AmongTotalStep(statuses: map<string, AppStatusInfo>, done: set<string>, id: string)
    requires id in statuses && id !in done
    ensures AmongTotal(statuses, done + {id}) == AmongTotal(statuses, done) + 1
  {
    AmongStep(statuses, done, id);
  }

  lemma EmptyAmong(statuses: map<string, AppStatusInfo>, done: set<string>, s: AppStatus)
    requires done == {}
    ensures |IdsAmong(statuses, done, s)| == 0
  {
  }

  /** The count a `get_status_counts` map gives a status (absent means 0). */
  function CountOf(counts: map<AppStatus, nat>, s: AppStatus): nat {
    if s in counts then counts[s] else 0
  }

  /** The counts of all six statuses added up. */
  function Total(counts: map<AppStatus, nat>): nat {
    CountOf(counts, AppInactive) + CountOf(counts, AppPending) + CountOf(counts, NetworkError)
    + CountOf(counts, AppLatest) + CountOf(counts, AppOutdated) + CountOf(counts, AppNoLocal)
  }

  /** Counts that match the statuses add up to the number of tracked apps. */
  lemma CountsSumToSize(statuses: map<string, AppStatusInfo>, counts: map<AppStatus, nat>)
    requires forall s :: CountOf(counts, s) == |IdsWith(statuses, s)|
    ensures Total(counts) == |statuses|
  {
    AmongPartition(statuses, statuses.Keys);
  }

  class StatusTracker {
    var statuses: map<string, AppStatusInfo>
    const compare: Comparator

    /** Every record sits under its own app id. */
    ghost predicate Valid()
      reads this
    {
      forall id :: id in statuses ==> statuses[id].appId == id
    }

    constructor(compare: Comparator)
      ensures Valid() && statuses == map[] && this.compare == compare
    {
      statuses := map[];
      this.compare := compare;
    }

    /** Installs a fresh record, replacing any earlier one. */
    method AddApp(appId: string)
      requires Valid()
      modifies this
      ensures Valid()
      ensures statuses == old(statuses)[appId := NewInfo(appId)]
    {
      statuses := statuses[appId := NewInfo(appId)];
    }

    method RemoveApp(appId: string) returns (removed: bool)
      requires Valid()
      modifies this
      ensures Valid()
      ensures removed <==> appId in old(statuses)
      ensures statuses == old(statuses) - {appId}
      ensures GetStatus(appId).None?
    {
      removed := appId in statuses;
      statuses := statuses - {appId};
    }

    function GetStatus(appId: string): (r: Option<AppStatusInfo>)
      reads this
      ensures r.Some? <==> appId in statuses
      ensures r.Some? ==> r.value == statuses[appId]
      ensures Valid() && r.Some? ==> r.value.appId == appId
    {
      if appId in statuses then Some(statuses[appId]) else None
    }

    /** One record per tracked app, in the map's (unspecified) order. */
    method GetAllStatuses() returns (r: seq<AppStatusInfo>)
      requires Valid()
      ensures |r| == |statuses| && DistinctIds(r)
      ensures forall id :: id in statuses ==> statuses[id] in r
      ensures forall info :: info in r ==> info.appId in statuses && statuses[info.appId] == info
    {
      var m := statuses;
      var entries := MapEntries(m);
      r := seq(|entries|, i requires 0 <= i < |entries| => entries[i].1);
      forall id | id in m
        ensures m[id] in r
      {
        var i :| 0 <= i < |entries| && entries[i] == (id, m[id]);
        assert r[i] == m[id];
      }
      forall i, j | 0 <= i < j < |r|
        ensures r[i].appId != r[j].appId
      {
        assert r[i].appId == entries[i].0 && r[j].appId == entries[j].0;
      }
    }

    /** The records in status `status`, each app at most once. */
    method GetAppsWithStatus(status: AppStatus) returns (r: seq<AppStatusInfo>)
      requires Valid()
      ensures DistinctIds(r)
      ensures forall info :: info in r ==> (info.status == status && info.appId in statuses
                                            && statuses[info.appId] == info)
      ensures forall id :: id in IdsWith(statuses, status) ==> statuses[id] in r
    {
      var all := GetAllStatuses();
      r := FilterStatus(all, status);
      FilterDistinct(all, status);
    }

    /** The per-app updates below change a tracked record only; an unknown
        id is left alone. */
    method SetPending(appId: string)
      requires Valid()
      modifies this
      ensures Valid()
      ensures statuses == if appId in old(statuses) then old(statuses)[appId := Pending(old(statuses)[appId])]
                          else old(statuses)
    {
      if appId in statuses {
        statuses := statuses[appId := Pending(statuses[appId])];
      }
    }

    method UpdateWithRelease(appId: string, release: Option<ReleaseData>, now: nat)
      requires Valid()
      modifies this
      ensures Valid()
      ensures statuses == if appId in old(statuses)
                          then old(statuses)[appId := WithRelease(old(statuses)[appId], release, now, compare)]
                          else old(statuses)
    {
      if appId in statuses {
        statuses := statuses[appId := WithRelease(statuses[appId], release, now, compare)];
      }
    }

    method UpdateWithError(appId: string, error: string, now: nat)
      requires Valid()
      modifies this
      ensures Valid()
      ensures statuses == if appId in old(statuses)
                          then old(statuses)[appId := WithError(old(statuses)[appId], error, now)]
                          else old(statuses)
    {
      if appId in statuses {
        statuses := statuses[appId := WithError(statuses[appId], error, now)];
      }
    }

    method SetLocalVersion(appId: string, version: Option<string>)
      requires Valid()
      modifies this
      ensures Valid()
      ensures statuses == if appId in old(statuses)
                          then old(statuses)[appId := WithLocalVersion(old(statuses)[appId], version, compare)]
                          else old(statuses)
    {
      if appId in statuses {
        statuses := statuses[appId := WithLocalVersion(statuses[appId], version, compare)];
      }
    }

    /** How many apps are in each status; a status no app is in has no
        entry. */
    method GetStatusCounts() returns (counts: map<AppStatus, nat>)
      ensures forall s :: CountOf(counts, s) == |IdsWith(statuses, s)|
      ensures forall s :: s in counts <==> IdsWith(statuses, s) != {}
      ensures Total(counts) == |statuses|
    {
      var m := statuses;
      counts := map[];
      var done: set<string> := {};
      var rest := m.Keys;
      while rest != {}
        invariant done + rest == m.Keys && done * rest == {}
        invariant forall s :: CountOf(counts, s) == |IdsAmong(m, done, s)|
        invariant forall s :: s in counts ==> counts[s] > 0
        decreases rest
      {
        var id :| id in rest;
        CountStep(m, done, counts, id);
        var s := m[id].status;
        counts := counts[s := CountOf(counts, s) + 1];
        done := done + {id};
        rest := rest - {id};
      }
      CountsSumToSize(m, counts);
    }

    method GetOutdatedApps() returns (r: seq<AppStatusInfo>)
      requires Valid()
      ensures DistinctIds(r)
      ensures forall info :: info in r ==> (HasUpdates(info.status) && info.appId in statuses
                                            && statuses[info.appId] == info)
      ensures forall id :: id in IdsWith(statuses, AppOutdated) ==> statuses[id] in r
    {
      r := GetAppsWithStatus(AppOutdated);
    }

    method GetErrorApps() returns (r: seq<AppStatusInfo>)
      requires Valid()
      ensures DistinctIds(r)
      ensures forall info :: info in r ==> (HasError(info.status) && info.appId in statuses
                                            && statuses[info.appId] == info)
      ensures forall id :: id in IdsWith(statuses, NetworkError) ==> statuses[id] in r
    {
      r := GetAppsWithStatus(NetworkError);
    }

    method Clear()
      modifies this
      ensures Valid() && statuses == map[]
    {
      statuses := map[];
    }
  }
}
