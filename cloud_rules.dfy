/** src/websdk/cloud_rules: `CloudRules`, which holds the downloaded rule
    document, and its lookups in cloud_rules_wrapper.rs. The filters are
    the callers' closures, so they are parameters. */
module CloudRules {
  import opened Wrappers
  import opened CloudRuleData

  /** The items of `items` that `keep` accepts, in list order. */
  function Matching<T>(items: seq<T>, keep: T -> bool): (r: seq<T>)
    ensures |r| <= |items|
  {
    if items == [] then []
    else
      var last := items[|items| - 1];
      Matching(items[..|items| - 1], keep) + if keep(last) then [last] else []
  }

  /** The matches are exactly the accepted items. */
  lemma {:induction false} MatchingMembers<T>(items: seq<T>, keep: T -> bool, x: T)
    ensures x in Matching(items, keep) <==> x in items && keep(x)
    decreases |items|
  {
    if items != [] {
      var init := items[..|items| - 1];
      MatchingMembers(init, keep, x);
      assert items == init + [items[|items| - 1]];
    }
  }

  /** The first item `keep` accepts, if any. */
  function FirstMatch<T(==)>(items: seq<T>, keep: T -> bool): (r: Option<T>)
    ensures r.None? <==> forall i :: 0 <= i < |items| ==> !keep(items[i])
    ensures r.Some? ==> exists i :: 0 <= i < |items| && items[i] == r.value && keep(items[i])
                                    && forall j :: 0 <= j < i ==> !keep(items[j])
  {
    if items == [] then None
    else if keep(items[0]) then Some(items[0])
    else
      var r := FirstMatch(items[1..], keep);
      assert forall i :: 1 <= i < |items| ==> items[i] == items[1..][i - 1];
      if r.Some? then
        var i :| 0 <= i < |items[1..]| && items[1..][i] == r.value && keep(items[1..][i])
                  && forall j :: 0 <= j < i ==> !keep(items[1..][j]);
        assert items[i + 1] == r.value;
        r
      else r
  }

  /** The list of at most one item that the `only_first` loop keeps. */
  function AtMostFirst<T>(matches: seq<T>): (r: seq<T>)
    ensures |r| <= 1 && |r| <= |matches|
    ensures |matches| > 0 ==> r == [matches[0]]
  {
    if matches == [] then [] else [matches[0]]
  }

  /** Filtering a prefix gives a prefix of the filtered list. */
  lemma {:induction false} MatchingPrefix<T>(items: seq<T>, n: nat, keep: T -> bool)
    requires n <= |items|
    ensures Matching(items[..n], keep) <= Matching(items, keep)
    decreases |items|
  {
    if n < |items| {
      var init := items[..|items| - 1];
      assert init[..n] == items[..n];
      MatchingPrefix(init, n, keep);
    } else {
      assert items[..n] == items;
    }
  }

  /** The first match is the head of the list of all matches. */
  lemma FirstMatchIsHead<T>(items: seq<T>, keep: T -> bool)
    ensures FirstMatch(items, keep) == if Matching(items, keep) == [] then None
                                       else Some(Matching(items, keep)[0])
  {
    var first := FirstMatch(items, keep);
    if first.None? {
      NothingAccepted(items, keep);
    } else {
      FoundIsHead(items, keep, first.value);
    }
  }

  /** When `FirstMatch` finds `x`, the list of all matches starts with `x`. */
  lemma FoundIsHead<T>(items: seq<T>, keep: T -> bool, x: T)
    requires FirstMatch(items, keep) == Some(x)
    ensures Matching(items, keep) != [] && Matching(items, keep)[0] == x
  {
    var i :| 0 <= i < |items| && items[i] == x && keep(items[i])
              && forall j :: 0 <= j < i ==> !keep(items[j]);
    NothingAccepted(items[..i], keep);
    MatchingPrefix(items, i + 1, keep);
    assert items[..i + 1][..i] == items[..i];
    assert Matching(items[..i + 1], keep) == [x];
  }

  /** A list none of whose items is accepted filters to nothing. */
  lemma {:induction false} NothingAccepted<T>(items: seq<T>, keep: T -> bool)
    requires forall j :: 0 <= j < |items| ==> !keep(items[j])
    ensures Matching(items, keep) == []
    decreases |items|
  {
    if items != [] {
      NothingAccepted(items[..|items| - 1], keep);
    }
  }

  /** An always-true filter keeps every item, in order. */
  lemma {:induction false} KeepAllIsIdentity<T>(items: seq<T>, keep: T -> bool)
    requires forall x :: keep(x)
    ensures Matching(items, keep) == items
    decreases |items|
  {
    if items != [] {
      KeepAllIsIdentity(items[..|items| - 1], keep);
      assert items[..|items| - 1] + [items[|items| - 1]] == items;
    }
  }

  /** A filter that accepts nothing finds nothing. */
  lemma KeepNoneFindsNothing<T>(items: seq<T>, keep: T -> bool)
    requires forall x :: !keep(x)
    ensures Matching(items, keep) == [] && FirstMatch(items, keep) == None
  {
    NothingAccepted(items, keep);
  }

  class CloudRules {
    const apiUrl: string
    var configList: Option<ConfigList>

    /** `CloudRules::new`: nothing downloaded yet. */
    constructor (apiUrl: string)
      ensures this.apiUrl == apiUrl && configList == None
    {
      this.apiUrl := apiUrl;
      configList := None;
    }

    /** `get_config_list`: a view of the downloaded document, or the empty
        default view before the first download. */
    function GetConfigList(): (v: ConfigListViewer)
      reads this
      ensures configList.None? ==> v == DefaultViewer()
      ensures configList.Some? ==> ToOwned(v) == configList.value
    {
      match configList
      case None => DefaultViewer()
      case Some(c) =>
        ToOwnedViewer(c);
        Viewer(c)
    }

    /** `renew`: a downloaded document replaces the one held; a failed
        download is passed on and keeps it. The download of `apiUrl` is
        the parameter `downloaded`. */
    method Renew(downloaded: Result<ConfigList>) returns (r: Result<()>)
      modifies this
      ensures downloaded.Ok? ==> r == Ok(()) && configList == Some(downloaded.value)
      ensures downloaded.Err? ==> r == Err(downloaded.msg) && configList == old(configList)
      ensures downloaded.Ok? ==> GetConfigList() == Viewer(downloaded.value)
    {
      if downloaded.Err? {
        return Err(downloaded.msg);
      }
      configList := Some(downloaded.value);
      r := Ok(());
    }

    /** `_get_cloud_app_rules`: the matching app items in list order, or
        only the first of them when `onlyFirst` is set. */
    method GetCloudAppRulesFrom(keep: AppItem -> bool, onlyFirst: bool) returns (list: seq<AppItem>)
      ensures var all := Matching(GetConfigList().appConfigList, keep);
              list == if onlyFirst then AtMostFirst(all) else all
    {
      var apps := GetConfigList().appConfigList;
      list := [];
      for i := 0 to |apps|
        invariant list == Matching(apps[..i], keep)
        invariant onlyFirst ==> list == []
      {
        assert apps[..i + 1][..i] == apps[..i];
        if keep(apps[i]) {
          list := list + [apps[i]];
          if onlyFirst {
            assert list == Matching(apps[..i + 1], keep);
            MatchingPrefix(apps, i + 1, keep);
            return;
          }
        }
      }
      assert apps[..|apps|] == apps;
    }

    /** `get_cloud_app_rules`: the first matching app item, if any. */
    method GetCloudAppRules(keep: AppItem -> bool) returns (r: Option<AppItem>)
      ensures r == FirstMatch(GetConfigList().appConfigList, keep)
    {
      var list := GetCloudAppRulesFrom(keep, true);
      FirstMatchIsHead(GetConfigList().appConfigList, keep);
      r := if list == [] then None else Some(list[0]);
    }

    /** `get_cloud_app_rules_list`: every matching app item, in list order. */
    method GetCloudAppRulesList(keep: AppItem -> bool) returns (list: seq<AppItem>)
      ensures list == Matching(GetConfigList().appConfigList, keep)
    {
      list := GetCloudAppRulesFrom(keep, false);
    }

    /** `get_cloud_hub_rules`: the first matching hub item, if any. */
    method GetCloudHubRules(keep: HubItem -> bool) returns (r: Option<HubItem>)
      ensures r == FirstMatch(GetConfigList().hubConfigList, keep)
    {
      var hubs := GetConfigList().hubConfigList;
      for i := 0 to |hubs|
        invariant forall j :: 0 <= j < i ==> !keep(hubs[j])
      {
        if keep(hubs[i]) {
          FirstMatchUnique(hubs, keep, i);
          return Some(hubs[i]);
        }
      }
      return None;
    }
  }

  /** The first accepted index determines `FirstMatch`. */
  lemma FirstMatchUnique<T>(items: seq<T>, keep: T -> bool, i: nat)
    requires i < |items| && keep(items[i])
    requires forall j :: 0 <= j < i ==> !keep(items[j])
    ensures FirstMatch(items, keep) == Some(items[i])
  {
    var r := FirstMatch(items, keep);
    var k :| 0 <= k < |items| && items[k] == r.value && keep(items[k])
              && forall j :: 0 <= j < k ==> !keep(items[j]);
    assert k == i;
  }
}
