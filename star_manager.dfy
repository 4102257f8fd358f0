/** packages/getter-appmanager/src/star_manager.rs: the set of starred
    app ids. The mutex around the set is not modelled. */
module StarManager {
  import opened Collections

  class StarManager {
    var starredApps: set<string>

    constructor()
      ensures starredApps == {}
    {
      starredApps := {};
    }

    /** Stars or unstars; true iff the set changed (`HashSet::insert` /
        `HashSet::remove`). No other id is affected. */
    method SetStar(appId: string, star: bool) returns (changed: bool)
      modifies this
      ensures star ==> (changed <==> appId !in old(starredApps)) && starredApps == old(starredApps) + {appId}
      ensures !star ==> (changed <==> appId in old(starredApps)) && starredApps == old(starredApps) - {appId}
      ensures IsStarred(appId) == star
    {
      if star {
        changed := appId !in starredApps;
        starredApps := starredApps + {appId};
      } else {
        changed := appId in starredApps;
        starredApps := starredApps - {appId};
      }
    }

    /** Starred exactly when unstarring would change the set, and not
        starred exactly when starring would. */
    predicate IsStarred(appId: string)
      reads this
      ensures IsStarred(appId) <==> starredApps - {appId} != starredApps
      ensures !IsStarred(appId) <==> starredApps + {appId} != starredApps
    {
      appId in starredApps
    }

    /** Each starred id exactly once, in hash order. */
    method GetStarredApps() returns (r: seq<string>)
      ensures forall x :: x in r <==> IsStarred(x)
      ensures Distinct(r) && |r| == |starredApps|
    {
      r := SetElements(starredApps);
    }

    method ClearAllStars()
      modifies this
      ensures starredApps == {}
    {
      starredApps := {};
    }
  }
}
