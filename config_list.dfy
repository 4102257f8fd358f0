/** src/websdk/cloud_rules/data: the cloud rule document (`ConfigList`)
    with its app and hub items, and the borrowed view of it
    (`ConfigListViewer`). A borrowed item and an owned item are the same
    value here; the view differs from the owned list only in what it
    owns, which a value model does not track, so borrowing every item
    (`iter().collect()`) and cloning every item back (`cloned().collect()`)
    are both the identity on the item lists, and `Viewer` and `ToOwned`
    are deliberately trivial conversions between the two records. */
module CloudRuleData {
  import opened Wrappers

  /** `AppInfo` of app_item.rs. */
  datatype AppInfo = AppInfo(name: string, url: string, extraMap: map<string, string>)

  /** `AppItem` of app_item.rs. */
  datatype AppItem = AppItem(baseVersion: int, configVersion: int, uuid: string,
                             baseHubUuid: string, info: AppInfo)

  /** `Info` of hub_item.rs. */
  datatype HubInfo = HubInfo(hubName: string, hubIconUrl: Option<string>)

  /** `HubItem` of hub_item.rs. */
  datatype HubItem = HubItem(baseVersion: int, configVersion: int, uuid: string, info: HubInfo,
                             apiKeywords: seq<string>, appUrlTemplates: seq<string>,
                             targetCheckApi: Option<string>)

  /** The owned document. */
  datatype ConfigList = ConfigList(appConfigList: seq<AppItem>, hubConfigList: seq<HubItem>)

  /** The borrowed document: one reference per item, in the owner's order. */
  datatype ConfigListViewer = ConfigListViewer(appConfigList: seq<AppItem>, hubConfigList: seq<HubItem>)

  /** `ConfigListViewer::default()`. */
  function DefaultViewer(): (v: ConfigListViewer)
    ensures |v.appConfigList| == 0 && |v.hubConfigList| == 0
  {
    ConfigListViewer([], [])
  }

  /** `ConfigList::viewer`. */
  function Viewer(c: ConfigList): (v: ConfigListViewer)
    ensures |v.appConfigList| == |c.appConfigList| && |v.hubConfigList| == |c.hubConfigList|
    ensures forall i :: 0 <= i < |c.appConfigList| ==> v.appConfigList[i] == c.appConfigList[i]
    ensures forall i :: 0 <= i < |c.hubConfigList| ==> v.hubConfigList[i] == c.hubConfigList[i]
  {
    ConfigListViewer(c.appConfigList, c.hubConfigList)
  }

  /** `ConfigListViewer::to_owned`. */
  function ToOwned(v: ConfigListViewer): (c: ConfigList)
    ensures |c.appConfigList| == |v.appConfigList| && |c.hubConfigList| == |v.hubConfigList|
    ensures forall i :: 0 <= i < |v.appConfigList| ==> c.appConfigList[i] == v.appConfigList[i]
    ensures forall i :: 0 <= i < |v.hubConfigList| ==> c.hubConfigList[i] == v.hubConfigList[i]
  {
    ConfigList(v.appConfigList, v.hubConfigList)
  }

  /** Owning what a view of `c` borrows gives back `c`. */
  lemma ToOwnedViewer(c: ConfigList)
    ensures ToOwned(Viewer(c)) == c
  {
  }

  /** Viewing an owned copy of `v` gives back `v`. */
  lemma ViewerToOwned(v: ConfigListViewer)
    ensures Viewer(ToOwned(v)) == v
  {
  }

  /** The owned copy of the default view is the empty document. */
  lemma DefaultOwnsNothing()
    ensures ToOwned(DefaultViewer()) == ConfigList([], [])
  {
  }
}
