/** packages/getter-provider/src/providers/fdroid.rs: the F-Droid provider,
    which reads a repository's `index.xml`. The XML reader (quick_xml) is
    a `Reader` over the sequence of events it would produce, with element
    names and texts already decoded and malformed attributes dropped; the
    end of the sequence is end of file, and `Fault` is a read error. The
    HTTP requests, the cache given to the call, and the UTF-8 check plus
    tokenising of the index are parameters. */
module FDroid {
  import opened Wrappers
  import opened Strings
  import opened Releases
  import opened BaseProvider

  const FdroidUrl := "https://f-droid.org"
  const KeyRepoUrl := "repo_url"
  const KeyRepoApiUrl := "repo_api_url"
  const AndroidAppType := "android_app_package"

  // ---------------------------------------------------------------------
  // URLs and cache keys

  /** `get_api_url`: where a repository keeps its index. */
  function ApiUrlOf(url: string): (r: string)
    ensures StartsWith(r, url) && EndsWith(r, "/repo/index.xml") && |r| == |url| + 15
  {
    url + "/repo/index.xml"
  }

  /** `get_urls`: the hub's repository URL (or f-droid.org) and its index
      URL, which the hub may give separately. */
  function GetUrls(hubData: map<string, string>): (r: (string, string))
    ensures r.0 == if KeyRepoUrl in hubData then hubData[KeyRepoUrl] else FdroidUrl
    ensures KeyRepoApiUrl in hubData ==> r.1 == hubData[KeyRepoApiUrl]
    ensures KeyRepoApiUrl !in hubData ==> r.1 == ApiUrlOf(r.0)
  {
    var url := if KeyRepoUrl in hubData then hubData[KeyRepoUrl] else FdroidUrl;
    (url, if KeyRepoApiUrl in hubData then hubData[KeyRepoApiUrl] else ApiUrlOf(url))
  }

  /** A hub without settings reads the official repository, and an index
      URL that is not given lies below the repository URL. */
  lemma UrlDefaults(hubData: map<string, string>)
    ensures GetUrls(map[]) == (FdroidUrl, FdroidUrl + "/repo/index.xml")
    ensures KeyRepoApiUrl !in hubData ==> StartsWith(GetUrls(hubData).1, GetUrls(hubData).0)
  {
    var url := GetUrls(hubData).0;
    assert (url + "/repo/index.xml")[..|url|] == url;
  }

  /** `get_cache_request_key`: the package page for the availability check
      (the package is "" when missing), the index for both release calls. */
  function CacheRequestKey(ft: FunctionType, appData: map<string, string>, hubData: map<string, string>)
    : (keys: seq<string>)
    ensures |keys| == 1
    ensures ft.CheckAppAvailable? ==>
              keys[0] == GetUrls(hubData).0 + "/packages/" + (if AndroidAppType in appData then appData[AndroidAppType] else "")
    ensures !ft.CheckAppAvailable? ==> keys[0] == GetUrls(hubData).1
  {
    var (url, apiUrl) := GetUrls(hubData);
    match ft
    case CheckAppAvailable =>
      [url + "/packages/" + (if AndroidAppType in appData then appData[AndroidAppType] else "")]
    case _ => [apiUrl]
  }

  /** Both release calls share the index key, whatever the app. */
  lemma ReleaseKeysShared(appData1: map<string, string>, appData2: map<string, string>, hubData: map<string, string>)
    ensures CacheRequestKey(GetLatestRelease, appData1, hubData) == CacheRequestKey(GetReleases, appData2, hubData)
  {
  }

  // ---------------------------------------------------------------------
  // The XML reader

  datatype XmlEvent =
    | Start(name: string, attributes: seq<(string, string)>)
    | End(name: string)
    | Text(text: string)
    | Fault
    | Ignored

  /** quick_xml's `Reader`: the events of the document and how many have
      been read. */
  class Reader {
    const events: seq<XmlEvent>
    var pos: nat

    predicate Valid()
      reads this
    {
      pos <= |events|
    }

    constructor (events: seq<XmlEvent>)
      ensures this.events == events && pos == 0 && Valid()
    {
      this.events := events;
      pos := 0;
    }

    /** `read_event`: the next event, or `None` at end of file, where the
        reader stays. */
    method ReadEvent() returns (e: Option<XmlEvent>)
      requires Valid()
      modifies this
      ensures Valid()
      ensures old(pos) < |events| ==> e == Some(events[old(pos)]) && pos == old(pos) + 1
      ensures old(pos) == |events| ==> e.None? && pos == old(pos)
    {
      if pos < |events| {
        e := Some(events[pos]);
        pos := pos + 1;
      } else {
        e := None;
      }
    }
  }

  // ---------------------------------------------------------------------
  // One <package>

  /** What `decode_package_xml` has gathered so far, and the element the
      next text belongs to. */
  datatype PackageScan = PackageScan(
    version: string, changelog: string, fileName: string, extra: map<string, string>, tag: string)

  const NoPackage := PackageScan("", "", "", map[], "")

  /** A text goes to the field of the element opened last. */
  function AddText(s: PackageScan, t: string): (r: PackageScan)
    ensures r.tag == s.tag
  {
    match s.tag
    case "version" => s.(version := s.version + t)
    case "changelog" => s.(changelog := s.changelog + t)
    case "versionCode" => s.(extra := s.extra["versionCode" := t])
    case "nativecode" => s.(extra := s.extra["nativecode" := t])
    case "apkname" => s.(fileName := s.fileName + t)
    case _ => s
  }

  /** The `decode_package_xml` loop from event `pos` on: `None` on a read
      error, else the gathered fields and the position after the closing
      `</package>` (or the end of the document). Closing tags do not
      reset the element texts go to. */
  function ScanPackage(events: seq<XmlEvent>, pos: nat, s: PackageScan): (r: Option<(PackageScan, nat)>)
    requires pos <= |events|
    ensures r.Some? ==> pos <= r.value.1 <= |events|
    decreases |events| - pos
  {
    if pos == |events| then Some((s, pos))
    else
      match events[pos]
      case Fault => None
      case Start(name, _) => ScanPackage(events, pos + 1, s.(tag := name))
      case End(name) => if name == "package" then Some((s, pos + 1)) else ScanPackage(events, pos + 1, s)
      case Text(t) => ScanPackage(events, pos + 1, AddText(s, t))
      case Ignored => ScanPackage(events, pos + 1, s)
  }

  /** The part after the last '.', the whole name without one
      (`split('.').next_back()`). */
  function AfterLastDot(s: string): (r: string)
    ensures '.' !in r && EndsWith(s, r)
    ensures '.' !in s ==> r == s
    ensures '.' in s ==> |r| < |s| && s[|s| - |r| - 1] == '.'
    decreases |s|
  {
    if s == [] then []
    else if s[|s| - 1] == '.' then []
    else
      var r := AfterLastDot(s[..|s| - 1]) + [s[|s| - 1]];
      assert forall c :: c in s ==> c in s[..|s| - 1] || c == s[|s| - 1];
      r
  }

  /** A name ending in ".<ext>" has type `ext`: "x.apk" is an "apk". */
  lemma {:induction false} FileTypeIsExtension(base: string, ext: string)
    requires '.' !in ext
    ensures AfterLastDot(base + "." + ext) == ext
    decreases |ext|
  {
    var s := base + "." + ext;
    if ext != [] {
      var shorter := ext[..|ext| - 1];
      assert s[..|s| - 1] == base + "." + shorter;
      assert s[|s| - 1] == ext[|ext| - 1];
      FileTypeIsExtension(base, shorter);
      assert ext == shorter + [ext[|ext| - 1]];
    } else {
      assert s[|s| - 1] == '.';
    }
  }

  /** The release of one `<package>`: one asset named by `apkname`, found
      under the repository URL, typed by its extension; no extra when no
      version code or native code was read. */
  function PackageRelease(s: PackageScan, url: string): (r: ReleaseData)
    ensures r.versionNumber == s.version && r.changelog == s.changelog
    ensures r.assets == [AssetData(s.fileName, AfterLastDot(s.fileName), url + "/" + s.fileName)]
    ensures r.extra.None? <==> s.extra == map[]
    ensures r.extra.Some? ==> r.extra.value == s.extra
  {
    ReleaseData(s.version, s.changelog, [AssetData(s.fileName, AfterLastDot(s.fileName), url + "/" + s.fileName)],
                if s.extra == map[] then None else Some(s.extra))
  }

  /** `decode_package_xml`, called just after `<package>` was read. */
  method DecodePackageXml(reader: Reader, url: string) returns (r: Option<ReleaseData>)
    requires reader.Valid()
    modifies reader
    ensures reader.Valid()
    ensures ScanPackage(reader.events, old(reader.pos), NoPackage).None? ==> r.None?
    ensures ScanPackage(reader.events, old(reader.pos), NoPackage).Some? ==>
              var (s, next) := ScanPackage(reader.events, old(reader.pos), NoPackage).value;
              r == Some(PackageRelease(s, url)) && reader.pos == next
  {
    ghost var start := reader.pos;
    var versionNumber, changelog, fileName := "", "", "";
    var extra: map<string, string> := map[];
    var currentTag := "";
    while true
      invariant reader.Valid()
      invariant ScanPackage(reader.events, start, NoPackage)
                == ScanPackage(reader.events, reader.pos, PackageScan(versionNumber, changelog, fileName, extra, currentTag))
      decreases |reader.events| - reader.pos
    {
      var e := reader.ReadEvent();
      match e
      case None =>
        break;
      case Some(Fault) =>
        return None;
      case Some(Start(name, _)) =>
        currentTag := name;
      case Some(End(name)) =>
        if name == "package" {
          break;
        }
      case Some(Text(t)) =>
        match currentTag {
          case "version" => versionNumber := versionNumber + t;
          case "changelog" => changelog := changelog + t;
          case "versionCode" => extra := extra["versionCode" := t];
          case "nativecode" => extra := extra["nativecode" := t];
          case "apkname" => fileName := fileName + t;
          case _ =>
        }
      case Some(Ignored) =>
    }
    var s := PackageScan(versionNumber, changelog, fileName, extra, currentTag);
    r := Some(ReleaseData(versionNumber, changelog, [AssetData(fileName, AfterLastDot(fileName), url + "/" + fileName)],
                          if extra == map[] then None else Some(extra)));
    assert r == Some(PackageRelease(s, url));
  }

  /** Decoding a package stops at its `</package>`: what follows does not
      matter, and the result is what end of file there would give. */
  lemma {:induction false} PackageStopsAtClose(pre: seq<XmlEvent>, post: seq<XmlEvent>, pos: nat, s: PackageScan)
    requires pos <= |pre|
    requires forall i :: pos <= i < |pre| ==> pre[i] != Fault && pre[i] != End("package")
    ensures ScanPackage(pre, pos, s).Some?
    ensures ScanPackage(pre + [End("package")] + post, pos, s) == Some((ScanPackage(pre, pos, s).value.0, |pre| + 1))
    decreases |pre| - pos
  {
    var events := pre + [End("package")] + post;
    assert events[|pre|] == End("package");
    if pos < |pre| {
      assert events[pos] == pre[pos];
      match pre[pos]
      case Start(name, _) => PackageStopsAtClose(pre, post, pos + 1, s.(tag := name));
      case End(name) => PackageStopsAtClose(pre, post, pos + 1, s);
      case Text(t) => PackageStopsAtClose(pre, post, pos + 1, AddText(s, t));
      case Ignored => PackageStopsAtClose(pre, post, pos + 1, s);
    }
  }

  /** A text is read while a `versionCode` or `nativecode` element is the
      last one opened, before the package ends. */
  predicate CodeTextAhead(events: seq<XmlEvent>, pos: nat, tag: string)
    requires pos <= |events|
    decreases |events| - pos
  {
    pos < |events| &&
    match events[pos]
    case Fault => false
    case Start(name, _) => CodeTextAhead(events, pos + 1, name)
    case End(name) => name != "package" && CodeTextAhead(events, pos + 1, tag)
    case Text(_) => tag in {"versionCode", "nativecode"} || CodeTextAhead(events, pos + 1, tag)
    case Ignored => CodeTextAhead(events, pos + 1, tag)
  }

  /** A package has extra data exactly when a version code or native code
      text was read for it. */
  lemma {:induction false} ExtraIffCodeText(events: seq<XmlEvent>, pos: nat, s: PackageScan)
    requires pos <= |events| && ScanPackage(events, pos, s).Some?
    ensures ScanPackage(events, pos, s).value.0.extra == map[]
            <==> s.extra == map[] && !CodeTextAhead(events, pos, s.tag)
    decreases |events| - pos
  {
    if pos < |events| {
      match events[pos]
      case Start(name, _) => ExtraIffCodeText(events, pos + 1, s.(tag := name));
      case End(name) =>
        if name != "package" {
          ExtraIffCodeText(events, pos + 1, s);
        }
      case Text(t) =>
        var next := AddText(s, t);
        ExtraIffCodeText(events, pos + 1, next);
        if s.tag in {"versionCode", "nativecode"} {
          assert s.tag in next.extra;
        } else {
          assert next.extra == s.extra;
        }
      case Ignored => ExtraIffCodeText(events, pos + 1, s);
    }
  }

  /** Texts go to the element opened last even after it closes, and a
      later version code replaces an earlier one. */
  lemma TextsFollowLastOpened()
    ensures var events := [Start("version", []), Text("1."), End("version"), Text("0"),
                           Start("versionCode", []), Text("1"), Text("2"), End("package")];
            var scan := ScanPackage(events, 0, NoPackage);
            scan.Some? && scan.value.0.version == "1.0" && scan.value.0.extra == map["versionCode" := "2"]
  {
    var events := [Start("version", []), Text("1."), End("version"), Text("0"),
                   Start("versionCode", []), Text("1"), Text("2"), End("package")];
    var s1 := NoPackage.(tag := "version");
    var s2 := AddText(s1, "1.");
    var s4 := AddText(s2, "0");
    var s5 := s4.(tag := "versionCode");
    var s6 := AddText(s5, "1");
    var s7 := AddText(s6, "2");
    assert ScanPackage(events, 7, s7) == Some((s7, 8));
    assert ScanPackage(events, 6, s6) == ScanPackage(events, 7, s7);
    assert ScanPackage(events, 5, s5) == ScanPackage(events, 6, s6);
    assert ScanPackage(events, 4, s4) == ScanPackage(events, 5, s5);
    assert ScanPackage(events, 3, s2) == ScanPackage(events, 4, s4);
    assert ScanPackage(events, 2, s2) == ScanPackage(events, 3, s2);
    assert ScanPackage(events, 1, s1) == ScanPackage(events, 2, s2);
    assert s4.version == "" + "1." + "0" == "1.0";
    assert s7.extra == map["versionCode" := "2"];
    assert ScanPackage(events, 0, NoPackage) == ScanPackage(events, 1, s1);
  }

  // ---------------------------------------------------------------------
  // One <application>

  /** What `decode_release_xml` has gathered so far. */
  datatype AppScan = AppScan(releases: seq<ReleaseData>, changelog: string, tag: string)

  const NoApp := AppScan([], "", "")

  /** The `decode_release_xml` loop from event `pos` on: `None` on a read
      error, else one release per `<package>` in document order, the
      application-level changelog text, and the position after
      `</application>` (or the end of the document). */
  function ScanApplication(events: seq<XmlEvent>, pos: nat, a: AppScan, url: string): (r: Option<(AppScan, nat)>)
    requires pos <= |events|
    ensures r.Some? ==> pos <= r.value.1 <= |events|
    ensures r.Some? ==> |r.value.0.releases| >= |a.releases| && r.value.0.releases[..|a.releases|] == a.releases
    decreases |events| - pos
  {
    if pos == |events| then Some((a, pos))
    else
      match events[pos]
      case Fault => None
      case Start(name, _) =>
        if name == "package" then
          match ScanPackage(events, pos + 1, NoPackage)
          case None => None
          case Some((p, next)) =>
            var more := a.(releases := a.releases + [PackageRelease(p, url)]);
            var r := ScanApplication(events, next, more, url);
            assert r.Some? ==> r.value.0.releases[..|a.releases|] == r.value.0.releases[..|more.releases|][..|a.releases|];
            r
        else ScanApplication(events, pos + 1, a.(tag := name), url)
      case End(name) => if name == "application" then Some((a, pos + 1)) else ScanApplication(events, pos + 1, a, url)
      case Text(t) =>
        ScanApplication(events, pos + 1, if a.tag == "changelog" then a.(changelog := a.changelog + t) else a, url)
      case Ignored => ScanApplication(events, pos + 1, a, url)
  }

  /** The end of `decode_release_xml`: a non-empty application changelog
      replaces the changelog of the first release only. */
  function FinishApplication(a: AppScan): (r: seq<ReleaseData>)
    ensures |r| == |a.releases|
    ensures forall i :: 0 < i < |r| ==> r[i] == a.releases[i]
    ensures r != [] ==> r[0] == a.releases[0].(changelog := if a.changelog != "" then a.changelog else a.releases[0].changelog)
  {
    if a.changelog != "" && a.releases != [] then a.releases[0 := a.releases[0].(changelog := a.changelog)]
    else a.releases
  }

  /** `decode_release_xml`, called just after `<application id=..>` was
      read. */
  method DecodeReleaseXml(reader: Reader, url: string) returns (r: Option<seq<ReleaseData>>)
    requires reader.Valid()
    modifies reader
    ensures reader.Valid()
    ensures ScanApplication(reader.events, old(reader.pos), NoApp, url).None? ==> r.None?
    ensures ScanApplication(reader.events, old(reader.pos), NoApp, url).Some? ==>
              var (a, next) := ScanApplication(reader.events, old(reader.pos), NoApp, url).value;
              r == Some(FinishApplication(a)) && reader.pos == next
  {
    ghost var start := reader.pos;
    var releases: seq<ReleaseData> := [];
    var changelog := "";
    var currentTag := "";
    while true
      invariant reader.Valid()
      invariant ScanApplication(reader.events, start, NoApp, url)
                == ScanApplication(reader.events, reader.pos, AppScan(releases, changelog, currentTag), url)
      decreases |reader.events| - reader.pos
    {
      var e := reader.ReadEvent();
      match e
      case None =>
        break;
      case Some(Fault) =>
        return None;
      case Some(Start(name, _)) =>
        if name == "package" {
          var release := DecodePackageXml(reader, url);
          if release.None? {
            return None;
          }
          releases := releases + [release.value];
        } else {
          currentTag := name;
        }
      case Some(End(name)) =>
        if name == "application" {
          break;
        }
      case Some(Text(t)) =>
        if currentTag == "changelog" {
          changelog := changelog + t;
        }
      case Some(Ignored) =>
    }
    if changelog != "" && releases != [] {
      releases := releases[0 := releases[0].(changelog := changelog)];
    }
    r := Some(releases);
  }

  // ---------------------------------------------------------------------
  // Finding applications

  /** The value of the first `id` attribute. */
  function IdOf(attributes: seq<(string, string)>): (r: Option<string>)
    ensures r.None? <==> forall i :: 0 <= i < |attributes| ==> attributes[i].0 != "id"
    ensures r.Some? ==> exists i :: 0 <= i < |attributes| && attributes[i] == ("id", r.value)
                                    && forall j :: 0 <= j < i ==> attributes[j].0 != "id"
    decreases |attributes|
  {
    if attributes == [] then None
    else if attributes[0].0 == "id" then Some(attributes[0].1)
    else
      var r := IdOf(attributes[1..]);
      assert r.Some? ==> exists i :: 1 <= i < |attributes| && attributes[i] == ("id", r.value)
                                     && forall j :: 0 <= j < i ==> attributes[j].0 != "id" by {
        if r.Some? {
          var i :| 0 <= i < |attributes[1..]| && attributes[1..][i] == ("id", r.value)
                   && forall j :: 0 <= j < i ==> attributes[1..][j].0 != "id";
          assert attributes[i + 1] == ("id", r.value);
          assert forall j :: 1 <= j < i + 1 ==> attributes[j] == attributes[1..][j - 1];
        }
      }
      r
  }

  /** The `get_releases_from_xml` loop from event `pos` on: `None` on a
      read error; at end of file the empty id and no releases; else the id
      of the next `<application>` with an `id` attribute, its releases,
      and the position after it. */
  function ScanForApplication(events: seq<XmlEvent>, pos: nat, url: string)
    : (r: Option<(string, seq<ReleaseData>, nat)>)
    requires pos <= |events|
    ensures r.Some? ==> pos <= r.value.2 <= |events|
    ensures r.Some? && r.value.2 == pos ==> r.value.0 == "" && r.value.1 == []
    decreases |events| - pos
  {
    if pos == |events| then Some(("", [], pos))
    else
      match events[pos]
      case Fault => None
      case Start(name, attributes) =>
        if name == "application" && IdOf(attributes).Some? then
          match ScanApplication(events, pos + 1, NoApp, url)
          case None => None
          case Some((a, next)) => Some((IdOf(attributes).value, FinishApplication(a), next))
        else ScanForApplication(events, pos + 1, url)
      case _ => ScanForApplication(events, pos + 1, url)
  }

  /** `get_releases_from_xml`. */
  method GetReleasesFromXml(reader: Reader, url: string) returns (r: Option<(string, seq<ReleaseData>)>)
    requires reader.Valid()
    modifies reader
    ensures reader.Valid()
    ensures ScanForApplication(reader.events, old(reader.pos), url).None? ==> r.None?
    ensures ScanForApplication(reader.events, old(reader.pos), url).Some? ==>
              var (id, releases, next) := ScanForApplication(reader.events, old(reader.pos), url).value;
              r == Some((id, releases)) && reader.pos == next
  {
    ghost var start := reader.pos;
    var packageId := "";
    while true
      invariant reader.Valid()
      invariant ScanForApplication(reader.events, start, url) == ScanForApplication(reader.events, reader.pos, url)
      decreases |reader.events| - reader.pos
    {
      var e := reader.ReadEvent();
      match e
      case None =>
        return Some((packageId, []));
      case Some(Fault) =>
        return None;
      case Some(Start(name, attributes)) =>
        if name == "application" {
          for k := 0 to |attributes|
            invariant forall j :: 0 <= j < k ==> attributes[j].0 != "id"
          {
            if attributes[k].0 == "id" {
              packageId := attributes[k].1;
              assert IdOf(attributes) == Some(packageId) by {
                IdOfFirst(attributes, k);
              }
              var releases := DecodeReleaseXml(reader, url);
              if releases.None? {
                return None;
              }
              return Some((packageId, releases.value));
            }
          }
        }
      case Some(_) =>
    }
  }

  /** The first `id` attribute is the one `IdOf` reports. */
  lemma {:induction false} IdOfFirst(attributes: seq<(string, string)>, k: nat)
    requires k < |attributes| && attributes[k].0 == "id"
    requires forall j :: 0 <= j < k ==> attributes[j].0 != "id"
    ensures IdOf(attributes) == Some(attributes[k].1)
    decreases k
  {
    if k > 0 {
      assert forall j :: 0 <= j < k - 1 ==> attributes[1..][j] == attributes[j + 1];
      IdOfFirst(attributes[1..], k - 1);
    }
  }

  // ---------------------------------------------------------------------
  // Choosing the package

  /** The applications `get_releases` reads, in document order: each with
      its id and releases, up to and including the first with an empty
      id. End of file, and a read error, give the empty id with no
      releases. */
  function Applications(events: seq<XmlEvent>, pos: nat, url: string): (apps: seq<(string, seq<ReleaseData>)>)
    requires pos <= |events|
    ensures |apps| >= 1 && apps[|apps| - 1].0 == ""
    decreases |events| - pos
  {
    match ScanForApplication(events, pos, url)
    case None => [("", [])]
    case Some((id, releases, next)) =>
      if id == "" then [(id, releases)] else [(id, releases)] + Applications(events, next, url)
  }

  /** The releases of the last application with id `packageId`, or `acc`
      when there is none. */
  function LastMatchFrom(apps: seq<(string, seq<ReleaseData>)>, packageId: string, acc: seq<ReleaseData>)
    : (r: seq<ReleaseData>)
    ensures (forall i :: 0 <= i < |apps| ==> apps[i].0 != packageId) ==> r == acc
    ensures forall i :: (0 <= i < |apps| && apps[i].0 == packageId
                         && (forall j :: i < j < |apps| ==> apps[j].0 != packageId)) ==> r == apps[i].1
    decreases |apps|
  {
    if apps == [] then acc
    else
      var r := LastMatchFrom(apps[1..], packageId, if apps[0].0 == packageId then apps[0].1 else acc);
      assert forall i :: 1 <= i < |apps| ==> apps[i] == apps[1..][i - 1];
      r
  }

  /** The releases `get_releases` reports for `packageId`: those of the last
      application with that id, none when there is no such application. */
  function LastMatch(apps: seq<(string, seq<ReleaseData>)>, packageId: string): seq<ReleaseData> {
    LastMatchFrom(apps, packageId, [])
  }

  /** An unknown package has no releases; a package that appears once has
      the releases of that application. */
  lemma UnknownPackageEmpty(apps: seq<(string, seq<ReleaseData>)>, packageId: string, i: nat)
    ensures (forall j :: 0 <= j < |apps| ==> apps[j].0 != packageId) ==> LastMatch(apps, packageId) == []
    ensures i < |apps| && apps[i].0 == packageId && (forall j :: 0 <= j < |apps| && j != i ==> apps[j].0 != packageId)
            ==> LastMatch(apps, packageId) == apps[i].1
  {
  }

  /** The loop of `get_releases` over the index: reads applications until
      the empty id, keeping the releases of each whose id is the package. */
  method SelectPackageReleases(events: seq<XmlEvent>, packageId: string, url: string)
    returns (releases: seq<ReleaseData>)
    ensures releases == LastMatch(Applications(events, 0, url), packageId)
  {
    var reader := new Reader(events);
    releases := [];
    while true
      invariant reader.Valid() && reader.events == events
      invariant LastMatch(Applications(events, 0, url), packageId)
                == LastMatchFrom(Applications(events, reader.pos, url), packageId, releases)
      decreases |events| - reader.pos
    {
      var found := GetReleasesFromXml(reader, url);
      var (xmlPackageId, found_releases) := if found.Some? then found.value else ("", []);
      if xmlPackageId == packageId {
        releases := found_releases;
      }
      if xmlPackageId == "" {
        break;
      }
    }
  }

  // ---------------------------------------------------------------------
  // The calls

  const MissingPackage := "Missing android_app_package in app_data"

  function Failure<T>(message: string): (out: FOut<T>)
    ensures out.result == Error(Other, message) && out.cachedMap.None?
  {
    SetError(NewEmpty(), Other, message)
  }

  /** `check_app_available`. `status` is the status of the HEAD request
      to the package page, or `None` when the URL does not parse or the
      request fails; the ghost `url` is where the request goes. */
  method CheckAvailable(appData: map<string, string>, hubData: map<string, string>,
                        status: Option<nat>, regex: RegexReplacer)
    returns (out: FOut<bool>, ghost url: string)
    ensures AndroidAppType !in appData ==> out == Failure(MissingPackage)
    ensures AndroidAppType in appData ==>
              out == NewOut(status.Some? && 200 <= status.value < 300)
              && exists order :: EnumeratesRules(hubData, order)
                                 && url == ApplyRules(order, CacheRequestKey(CheckAppAvailable, appData, hubData)[0], regex)
  {
    url := "";
    var (repoUrl, _) := GetUrls(hubData);
    if AndroidAppType !in appData {
      return Failure(MissingPackage), url;
    }
    var packageUrl := repoUrl + "/packages/" + appData[AndroidAppType];
    ghost var order;
    url, order := ReplaceProxyUrl(hubData, packageUrl, regex);
    out := NewOut(status.Some? && 200 <= status.value < 300);
  }

  /** The releases of `packageId` in a downloaded index; an index that
      is not UTF-8 lists none. */
  function IndexReleases(index: Bytes, parse: Bytes -> Option<seq<XmlEvent>>,
                         packageId: string, url: string): seq<ReleaseData>
  {
    match parse(index)
    case None => []
    case Some(events) => LastMatch(Applications(events, 0, url), packageId)
  }

  /** What `get_releases` answers. The index is read from the given cache
      under the index key, else downloaded (`response`, `None` when the
      URL does not parse, the request fails or there is no body) and then
      cached under that key. `parse` is the UTF-8 check and tokenising of
      the trimmed index, `None` when it is not UTF-8. */
  function ReleasesOutcome(appData: map<string, string>, hubData: map<string, string>,
                           cacheMap: Option<map<string, Bytes>>, response: Option<Bytes>,
                           parse: Bytes -> Option<seq<XmlEvent>>): (out: FOut<seq<ReleaseData>>)
    ensures AndroidAppType !in appData ==> out == Failure(MissingPackage)
    ensures AndroidAppType in appData ==>
              var key := CacheRequestKey(GetReleases, appData, hubData)[0];
              var cached := GetCache(cacheMap, key);
              var index := if cached.Some? then cached else response;
              && (index.None? ==> out == NewEmpty())
              && (index.Some? ==>
                    out.result == Done(IndexReleases(index.value, parse, appData[AndroidAppType], GetUrls(hubData).0))
                    && out.cachedMap == if cached.None? then Some(map[key := response.value]) else None)
  {
    if AndroidAppType !in appData then Failure(MissingPackage)
    else
      var key := CacheRequestKey(GetReleases, appData, hubData)[0];
      var cached := GetCache(cacheMap, key);
      var index := if cached.Some? then cached else response;
      if index.None? then NewEmpty()
      else
        var out := NewOut(IndexReleases(index.value, parse, appData[AndroidAppType], GetUrls(hubData).0));
        if cached.None? then SetCachedMap(out, map[key := index.value]) else out
  }

  /** `get_releases`: answers `ReleasesOutcome`, and downloads the index,
      at the reverse-proxied index URL, only when it is not cached. */
  method FetchReleases(appData: map<string, string>, hubData: map<string, string>,
                       cacheMap: Option<map<string, Bytes>>, response: Option<Bytes>,
                       parse: Bytes -> Option<seq<XmlEvent>>, regex: RegexReplacer)
    returns (out: FOut<seq<ReleaseData>>, ghost request: Option<string>)
    ensures out == ReleasesOutcome(appData, hubData, cacheMap, response, parse)
    ensures AndroidAppType in appData ==>
              var cached := GetCache(cacheMap, CacheRequestKey(GetReleases, appData, hubData)[0]);
              && (cached.Some? ==> request.None?)
              && (cached.None? ==>
                    && request.Some?
                    && exists order ::
                         EnumeratesRules(hubData, order) && request.value == ApplyRules(order, GetUrls(hubData).1, regex))
  {
    request := None;
    var (url, apiUrl) := GetUrls(hubData);
    if AndroidAppType !in appData {
      return Failure(MissingPackage), request;
    }
    var packageId := appData[AndroidAppType];
    ghost var order;
    var proxied;
    proxied, order := ReplaceProxyUrl(hubData, apiUrl, regex);
    var cacheKey := CacheRequestKey(GetReleases, appData, hubData)[0];
    var index := GetCache(cacheMap, cacheKey);
    var fetched := false;
    if index.None? {
      request := Some(proxied);
      index := response;
      fetched := true;
    }
    if index.None? {
      return NewEmpty(), request;
    }
    var releases: seq<ReleaseData> := [];
    var events := parse(index.value);
    if events.Some? {
      releases := SelectPackageReleases(events.value, packageId, url);
    }
    out := NewOut(releases);
    if fetched {
      out := SetCachedMap(out, map[cacheKey := index.value]);
    }
  }
}
