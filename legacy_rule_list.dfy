/** src/core/config/data/rule_list.rs: the older rule list, two name
    vectors with push-if-absent and remove-first. */
module LegacyRuleList {
  import opened Collections

  class RuleList {
    var appList: seq<string>
    var hubList: seq<string>

    /** `RuleList::new`. */
    constructor()
      ensures appList == [] && hubList == []
    {
      appList := [];
      hubList := [];
    }

    method PushApp(appName: string) returns (pushed: bool)
      modifies this
      ensures pushed <==> appName !in old(appList)
      ensures appList == PushAbsent(old(appList), appName)
      ensures hubList == old(hubList)
    {
      if appName in appList {
        pushed := false;
      } else {
        appList := appList + [appName];
        pushed := true;
      }
    }

    method RemoveApp(appName: string) returns (removed: bool)
      modifies this
      ensures removed <==> appName in old(appList)
      ensures appList == RemoveFirst(old(appList), appName)
      ensures hubList == old(hubList)
    {
      match Position(appList, appName)
      case None =>
        removed := false;
      case Some(i) =>
        appList := appList[..i] + appList[i + 1..];
        removed := true;
    }

    method PushHub(hubName: string) returns (pushed: bool)
      modifies this
      ensures pushed <==> hubName !in old(hubList)
      ensures hubList == PushAbsent(old(hubList), hubName)
      ensures appList == old(appList)
    {
      if hubName in hubList {
        pushed := false;
      } else {
        hubList := hubList + [hubName];
        pushed := true;
      }
    }

    method RemoveHub(hubName: string) returns (removed: bool)
      modifies this
      ensures removed <==> hubName in old(hubList)
      ensures hubList == RemoveFirst(old(hubList), hubName)
      ensures appList == old(appList)
    {
      match Position(hubList, hubName)
      case None =>
        removed := false;
      case Some(i) =>
        hubList := hubList[..i] + hubList[i + 1..];
        removed := true;
    }
  }
}
