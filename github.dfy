/** packages/getter-provider/src/providers/github.rs: the GitHub provider.
    The HTTP requests are parameters (the status of the HEAD request, the
    body of the GET request), and so are the two foreign pieces the
    provider calls: `Version::is_valid` (a regular expression and
    libversion) and `serde_json`'s rendering of a value as text. */
module GitHub {
  import opened Wrappers
  import opened Collections
  import opened Strings
  import opened JsonValues
  import opened Releases
  import opened BaseProvider

  const GithubApiUrl := "https://api.github.com"
  const GithubUrl := "https://github.com"
  const VersionNumberKey := "version_number_key"
  const VersionCodeKey := "version_code_key"

  // ---------------------------------------------------------------------
  // The token header

  /** A hub token counts only when it is not blank. */
  predicate UsableHubToken(hubData: map<string, string>) {
    "token" in hubData && Trim(hubData["token"]) != ""
  }

  /** `get_token_header`: the hub's token when it is not blank, else the
      app's token, as a bearer `Authorization` header; no header without a
      token. */
  function TokenHeader(hubData: map<string, string>, appData: map<string, string>): (h: map<string, string>)
    ensures h.Keys <= {"Authorization"}
    ensures h == map[] <==> !UsableHubToken(hubData) && "token" !in appData
    ensures UsableHubToken(hubData) ==> h["Authorization"] == "Bearer " + hubData["token"]
    ensures !UsableHubToken(hubData) && "token" in appData ==> h["Authorization"] == "Bearer " + appData["token"]
  {
    var token := if UsableHubToken(hubData) then Some(hubData["token"])
                 else if "token" in appData then Some(appData["token"])
                 else None;
    if token.Some? then
      var h := map["Authorization" := "Bearer " + token.value];
      assert "Authorization" in h;
      h
    else map[]
  }

  /** A blank hub token is the same as none, whatever the app holds. */
  lemma BlankHubTokenIgnored(hubData: map<string, string>, appData: map<string, string>, blank: string)
    requires Trim(blank) == ""
    ensures TokenHeader(hubData["token" := blank], appData) == TokenHeader(hubData - {"token"}, appData)
  {
  }

  /** A usable hub token wins over the app's token. */
  lemma HubTokenWins(hubData: map<string, string>, appData: map<string, string>, token: string)
    requires Trim(token) != ""
    ensures TokenHeader(hubData["token" := token], appData) == map["Authorization" := "Bearer " + token]
  {
  }

  // ---------------------------------------------------------------------
  // URLs and cache keys

  /** An app-data field, or "" when it is missing (`map_or("", ...)`). */
  function FieldOrEmpty(m: map<string, string>, key: string): string {
    if key in m then m[key] else ""
  }

  /** The repository page `check_app_available` sends its HEAD request to. */
  function RepoUrl(owner: string, repo: string): string {
    GithubUrl + "/" + owner + "/" + repo
  }

  /** The release list `get_releases` downloads. */
  function ReleasesUrl(owner: string, repo: string): string {
    GithubApiUrl + "/repos/" + owner + "/" + repo + "/releases"
  }

  /** `get_cache_request_key`: one key per call, the HEAD page for the
      availability check and the release list for both release calls;
      a missing owner or repo is rendered as "". */
  function CacheRequestKey(ft: FunctionType, appData: map<string, string>): (keys: seq<string>)
    ensures |keys| == 1
    ensures ft.CheckAppAvailable? ==>
              keys[0] == RepoUrl(FieldOrEmpty(appData, "owner"), FieldOrEmpty(appData, "repo")) + "/HEAD"
    ensures !ft.CheckAppAvailable? ==>
              keys[0] == ReleasesUrl(FieldOrEmpty(appData, "owner"), FieldOrEmpty(appData, "repo"))
  {
    match ft
    case CheckAppAvailable =>
      [GithubUrl + "/" + FieldOrEmpty(appData, "owner") + "/" + FieldOrEmpty(appData, "repo") + "/HEAD"]
    case _ =>
      [GithubApiUrl + "/repos/" + FieldOrEmpty(appData, "owner") + "/" + FieldOrEmpty(appData, "repo") + "/releases"]
  }

  /** Both release calls share one key; a missing owner or repo is the
      same as an empty one. */
  lemma CacheKeysAgree(appData: map<string, string>)
    ensures CacheRequestKey(GetLatestRelease, appData) == CacheRequestKey(GetReleases, appData)
    ensures "owner" !in appData ==>
              CacheRequestKey(GetReleases, appData) == CacheRequestKey(GetReleases, appData["owner" := ""])
    ensures "repo" !in appData ==>
              CacheRequestKey(CheckAppAvailable, appData) == CacheRequestKey(CheckAppAvailable, appData["repo" := ""])
  {
  }

  /** Two repositories whose owners have no '/' share a release cache key
      only when they are the same repository. */
  lemma {:induction false} ReleaseKeysDistinguishRepos(owner1: string, repo1: string, owner2: string, repo2: string)
    requires '/' !in owner1 && '/' !in owner2
    requires ReleasesUrl(owner1, repo1) == ReleasesUrl(owner2, repo2)
    ensures owner1 == owner2 && repo1 == repo2
  {
    var head := GithubApiUrl + "/repos/";
    var tail := "/releases";
    var u1, u2 := ReleasesUrl(owner1, repo1), ReleasesUrl(owner2, repo2);
    assert u1 == head + (owner1 + "/" + repo1) + tail;
    assert u2 == head + (owner2 + "/" + repo2) + tail;
    StripAround(head, owner1 + "/" + repo1, owner2 + "/" + repo2, tail);
    SplitAtFirst(owner1, repo1, owner2, repo2, '/');
  }

  /** Equal strings with the same prefix and suffix have equal middles. */
  lemma StripAround(head: string, mid1: string, mid2: string, tail: string)
    requires head + mid1 + tail == head + mid2 + tail
    ensures mid1 == mid2
  {
    var s := head + mid1 + tail;
    assert |mid1| == |mid2|;
    assert s[|head|..|head| + |mid1|] == mid1;
    assert (head + mid2 + tail)[|head|..|head| + |mid2|] == mid2;
  }

  /** The first `sep` splits a string in one way only. */
  lemma SplitAtFirst(a: string, b: string, c: string, d: string, sep: char)
    requires sep !in a && sep !in c
    requires a + [sep] + b == c + [sep] + d
    ensures a == c && b == d
  {
    var s := a + [sep] + b;
    SeparatorPosition(a, sep, b);
    SeparatorPosition(c, sep, d);
    assert a == s[..|a|];
    assert c == (c + [sep] + d)[..|c|];
    assert b == s[|a| + 1..];
    assert d == (c + [sep] + d)[|c| + 1..];
  }

  /** The separator after a prefix without one is the first. */
  lemma SeparatorPosition(x: string, sep: char, y: string)
    requires sep !in x
    ensures Position(x + [sep] + y, sep) == Some(|x|)
  {
    var s := x + [sep] + y;
    assert s[|x|] == sep;
    assert forall j :: 0 <= j < |x| ==> s[j] == x[j];
  }

  // ---------------------------------------------------------------------
  // Reading one release of the API answer

  /** The value under `key` is a string that `is_valid` accepts. */
  predicate ValidAt(json: Json, key: string, isValid: string -> bool) {
    GetStr(json, key).Some? && isValid(GetStr(json, key).value)
  }

  /** The keys tried for the version number: the hub's
      `version_number_key` first when it is set, then "name", then
      "tag_name". */
  function KeysToTry(hubData: map<string, string>): seq<string> {
    (if VersionNumberKey in hubData then [hubData[VersionNumberKey]] else []) + ["name", "tag_name"]
  }

  /** The index of the first key holding a valid version. */
  function FirstValid(json: Json, keys: seq<string>, isValid: string -> bool): (r: Option<nat>)
    ensures r.Some? ==> r.value < |keys| && ValidAt(json, keys[r.value], isValid)
    ensures r.Some? ==> forall j :: 0 <= j < r.value ==> !ValidAt(json, keys[j], isValid)
    ensures r.None? ==> forall j :: 0 <= j < |keys| ==> !ValidAt(json, keys[j], isValid)
    decreases |keys|
  {
    if keys == [] then None
    else if ValidAt(json, keys[0], isValid) then Some(0)
    else
      match FirstValid(json, keys[1..], isValid)
      case None => None
      case Some(i) => Some(i + 1)
  }

  /** The version number a release gets: the value of the first key
      holding a valid version, or none. */
  function VersionOf(json: Json, keys: seq<string>, isValid: string -> bool): (v: Option<string>)
    ensures v.Some? ==> isValid(v.value)
    ensures v.None? <==> forall j :: 0 <= j < |keys| ==> !ValidAt(json, keys[j], isValid)
  {
    match FirstValid(json, keys, isValid)
    case Some(i) => GetStr(json, keys[i])
    case None => None
  }

  /** The `for key in keys_to_try` loop: stops at the first key whose
      string value is a valid version. */
  method SelectVersion(json: Json, keys: seq<string>, isValid: string -> bool) returns (version: Option<string>)
    ensures version == VersionOf(json, keys, isValid)
  {
    version := None;
    var i := 0;
    while i < |keys|
      invariant 0 <= i <= |keys|
      invariant forall j :: 0 <= j < i ==> !ValidAt(json, keys[j], isValid)
    {
      var value := GetStr(json, keys[i]);
      if value.Some? && isValid(value.value) {
        version := value;
        return;
      }
      i := i + 1;
    }
  }

  /** A configured key holding a valid version decides the version; without
      one, a valid "name" wins over "tag_name". */
  lemma VersionKeyPreferred(json: Json, hubData: map<string, string>, isValid: string -> bool)
    ensures VersionNumberKey in hubData && ValidAt(json, hubData[VersionNumberKey], isValid) ==>
              VersionOf(json, KeysToTry(hubData), isValid) == GetStr(json, hubData[VersionNumberKey])
    ensures VersionNumberKey !in hubData && ValidAt(json, "name", isValid) ==>
              VersionOf(json, KeysToTry(hubData), isValid) == GetStr(json, "name")
    ensures VersionNumberKey !in hubData && !ValidAt(json, "name", isValid) ==>
              VersionOf(json, KeysToTry(hubData), isValid)
              == if ValidAt(json, "tag_name", isValid) then GetStr(json, "tag_name") else None
  {
    var keys := KeysToTry(hubData);
    if VersionNumberKey !in hubData {
      assert keys == ["name", "tag_name"];
      assert keys[1..] == ["tag_name"] && keys[1..][1..] == [];
      if !ValidAt(json, "name", isValid) {
        assert FirstValid(json, keys, isValid) == if ValidAt(json, "tag_name", isValid) then Some(1) else None;
      }
    }
  }

  /** One asset: name, content type and download URL, all strings. */
  function ParseAsset(asset: Json): (r: Option<AssetData>)
    ensures r.Some? <==> GetStr(asset, "name").Some? && GetStr(asset, "content_type").Some?
                         && GetStr(asset, "browser_download_url").Some?
    ensures r.Some? ==> r.value == AssetData(GetStr(asset, "name").value, GetStr(asset, "content_type").value,
                                             GetStr(asset, "browser_download_url").value)
  {
    match (GetStr(asset, "name"), GetStr(asset, "content_type"), GetStr(asset, "browser_download_url"))
    case (Some(name), Some(fileType), Some(url)) => Some(AssetData(name, fileType, url))
    case _ => None
  }

  /** `filter_map(ParseAsset)`: the assets that parse, in order. */
  function ParseAssets(items: seq<Json>): (r: seq<AssetData>)
    ensures |r| <= |items|
    ensures forall a :: a in r ==> exists x :: x in items && ParseAsset(x) == Some(a)
    decreases |items|
  {
    if items == [] then []
    else
      var rest := ParseAssets(items[1..]);
      assert forall x :: x in items[1..] ==> x in items;
      match ParseAsset(items[0])
      case Some(a) => [a] + rest
      case None => rest
  }

  /** An asset that parses is kept, in front of the assets after it; one
      that does not is dropped. */
  lemma AssetKept(x: Json, items: seq<Json>)
    ensures ParseAsset(x).Some? ==> ParseAssets([x] + items) == [ParseAsset(x).value] + ParseAssets(items)
    ensures ParseAsset(x).None? ==> ParseAssets([x] + items) == ParseAssets(items)
  {
    assert ([x] + items)[0] == x && ([x] + items)[1..] == items;
  }

  /** The filter keeps the order of the assets: two blocks are filtered
      block by block. */
  lemma {:induction false} ParseAssetsAppend(a: seq<Json>, b: seq<Json>)
    ensures ParseAssets(a + b) == ParseAssets(a) + ParseAssets(b)
    decreases |a|
  {
    if a == [] {
      assert a + b == b;
    } else {
      assert (a + b)[0] == a[0] && (a + b)[1..] == a[1..] + b;
      ParseAssetsAppend(a[1..], b);
    }
  }

  /** When every asset parses, none is dropped and the order is kept. */
  lemma {:induction false} AllAssetsParse(items: seq<Json>)
    requires forall i :: 0 <= i < |items| ==> ParseAsset(items[i]).Some?
    ensures |ParseAssets(items)| == |items|
    ensures forall i :: 0 <= i < |items| ==> ParseAssets(items)[i] == ParseAsset(items[i]).value
    decreases |items|
  {
    if items != [] {
      AllAssetsParse(items[1..]);
    }
  }

  /** The assets of a release: none when there is no "assets" field, and
      no release at all when "assets" is not an array. */
  function ReleaseAssets(json: Json): (r: Option<seq<AssetData>>)
    ensures Get(json, "assets").None? ==> r == Some([])
    ensures r.None? <==> Get(json, "assets").Some? && !Get(json, "assets").value.JArr?
  {
    match Get(json, "assets")
    case None => Some([])
    case Some(JArr(items)) => Some(ParseAssets(items))
    case Some(_) => None
  }

  /** One element of the API answer, or none when it is dropped. `render`
      is `Value::to_string`. */
  function ParseRelease(json: Json, hubData: map<string, string>, isValid: string -> bool, render: Json -> string)
    : (r: Option<ReleaseData>)
    ensures r.Some? <==> ReleaseAssets(json).Some? && VersionOf(json, KeysToTry(hubData), isValid).Some?
                         && GetStr(json, "body").Some?
    ensures r.Some? ==> r.value.versionNumber == VersionOf(json, KeysToTry(hubData), isValid).value
                        && r.value.changelog == GetStr(json, "body").value
                        && r.value.assets == ReleaseAssets(json).value
    ensures r.Some? ==> (r.value.extra.Some? <==> VersionCodeKey in hubData && Get(json, hubData[VersionCodeKey]).Some?)
    ensures r.Some? && r.value.extra.Some? ==>
              r.value.extra.value == map[hubData[VersionCodeKey] := render(Get(json, hubData[VersionCodeKey]).value)]
  {
    match (ReleaseAssets(json), VersionOf(json, KeysToTry(hubData), isValid), GetStr(json, "body"))
    case (Some(assets), Some(version), Some(changelog)) =>
      var extra := if VersionCodeKey in hubData && Get(json, hubData[VersionCodeKey]).Some?
                   then Some(map[hubData[VersionCodeKey] := render(Get(json, hubData[VersionCodeKey]).value)])
                   else None;
      Some(ReleaseData(version, changelog, assets, extra))
    case _ => None
  }

  /** The releases that parse, in the order of the API answer. */
  function ReleaseList(data: seq<Json>, hubData: map<string, string>, isValid: string -> bool, render: Json -> string)
    : (r: seq<ReleaseData>)
    ensures |r| <= |data|
    ensures forall x :: x in r ==> exists j :: j in data && ParseRelease(j, hubData, isValid, render) == Some(x)
    decreases |data|
  {
    if data == [] then []
    else
      var rest := ReleaseList(data[1..], hubData, isValid, render);
      assert forall j :: j in data[1..] ==> j in data;
      match ParseRelease(data[0], hubData, isValid, render)
      case Some(x) => [x] + rest
      case None => rest
  }

  /** A release dropped by the filter does not disturb the others. */
  lemma ReleaseListSkips(data: seq<Json>, hubData: map<string, string>, isValid: string -> bool,
                         render: Json -> string, json: Json)
    requires ParseRelease(json, hubData, isValid, render).None?
    ensures ReleaseList([json] + data, hubData, isValid, render) == ReleaseList(data, hubData, isValid, render)
  {
    assert ([json] + data)[1..] == data;
  }

  /** A release that parses is kept, in front of the releases after it. */
  lemma ReleaseListKeeps(data: seq<Json>, hubData: map<string, string>, isValid: string -> bool,
                         render: Json -> string, json: Json)
    requires ParseRelease(json, hubData, isValid, render).Some?
    ensures ReleaseList([json] + data, hubData, isValid, render)
            == [ParseRelease(json, hubData, isValid, render).value] + ReleaseList(data, hubData, isValid, render)
  {
    assert ([json] + data)[0] == json && ([json] + data)[1..] == data;
  }

  /** The filter keeps the order of the answer: two blocks are filtered
      block by block. */
  lemma {:induction false} ReleaseListAppend(a: seq<Json>, b: seq<Json>, hubData: map<string, string>,
                                             isValid: string -> bool, render: Json -> string)
    ensures ReleaseList(a + b, hubData, isValid, render)
            == ReleaseList(a, hubData, isValid, render) + ReleaseList(b, hubData, isValid, render)
    decreases |a|
  {
    if a == [] {
      assert a + b == b;
    } else {
      assert (a + b)[0] == a[0] && (a + b)[1..] == a[1..] + b;
      ReleaseListAppend(a[1..], b, hubData, isValid, render);
    }
  }

  // ---------------------------------------------------------------------
  // The two calls

  const MissingOwner := "Missing owner in app_data"
  const MissingRepo := "Missing repo in app_data"

  /** The error result returned before any request. */
  function MissingField<T>(message: string): (out: FOut<T>)
    ensures out.result == Error(Other, message) && out.cachedMap.None?
  {
    SetError(NewEmpty(), Other, message)
  }

  /** What `get_releases` returns once the URL is known. The response
      is only consulted on a cache miss; a fresh response is cached
      under the URL; a body that does not parse as a JSON array leaves
      the "no data" error. */
  function ReleasesOutcome(url: string, cacheMap: Option<map<string, Bytes>>, response: Option<Bytes>,
                           decode: Bytes -> Option<seq<Json>>, hubData: map<string, string>,
                           isValid: string -> bool, render: Json -> string)
    : (out: FOut<seq<ReleaseData>>)
    ensures GetCache(cacheMap, url).Some? ==> out.cachedMap.None?
    ensures GetCache(cacheMap, url).None? && response.Some? ==> out.cachedMap == Some(map[url := response.value])
    ensures GetCache(cacheMap, url).None? && response.None? ==> out == NewEmpty()
    ensures GetCache(cacheMap, url).Some? || response.Some? ==>
              var body := if GetCache(cacheMap, url).Some? then GetCache(cacheMap, url).value else response.value;
              && (decode(body).Some? ==> out.result == Done(ReleaseList(decode(body).value, hubData, isValid, render)))
              && (decode(body).None? ==> out.result == NewEmpty<seq<ReleaseData>>().result)
  {
    var cached := GetCache(cacheMap, url);
    var fetched := if cached.None? then response else None;
    var body := if fetched.Some? then fetched else cached;
    if body.None? then NewEmpty()
    else
      var fout := match decode(body.value)
        case Some(data) => SetData(NewEmpty(), ReleaseList(data, hubData, isValid, render))
        case None => NewEmpty();
      if fetched.Some? then SetCachedMap(fout, map[url := fetched.value]) else fout
  }

  /** `get_releases`. `response` is the body of the GET request, or
      `None` when the request failed. */
  method FetchReleases(appData: map<string, string>, hubData: map<string, string>,
                       cacheMap: Option<map<string, Bytes>>, response: Option<Bytes>,
                       decode: Bytes -> Option<seq<Json>>, isValid: string -> bool,
                       render: Json -> string, regex: RegexReplacer)
    returns (out: FOut<seq<ReleaseData>>, ghost order: seq<(string, string)>)
    ensures "owner" !in appData ==> out == MissingField(MissingOwner)
    ensures "owner" in appData && "repo" !in appData ==> out == MissingField(MissingRepo)
    ensures "owner" in appData && "repo" in appData ==>
              EnumeratesRules(hubData, order)
              && out == ReleasesOutcome(ApplyRules(order, ReleasesUrl(appData["owner"], appData["repo"]), regex),
                                        cacheMap, response, decode, hubData, isValid, render)
  {
    order := [];
    if "owner" !in appData {
      return MissingField(MissingOwner), order;
    }
    if "repo" !in appData {
      return MissingField(MissingRepo), order;
    }
    var url := ReleasesUrl(appData["owner"], appData["repo"]);
    url, order := ReplaceProxyUrl(hubData, url, regex);
    out := ReleasesOutcome(url, cacheMap, response, decode, hubData, isValid, render);
  }

  /** Without proxy rules, the release list is read from, and cached
      under, exactly the key `get_cache_request_key` announces. */
  lemma FetchUsesAnnouncedKey(appData: map<string, string>, hubData: map<string, string>,
                              order: seq<(string, string)>, regex: RegexReplacer, ft: FunctionType)
    requires "owner" in appData && "repo" in appData && !ft.CheckAppAvailable?
    requires EnumeratesRules(hubData, order) && ReverseProxy !in hubData
    ensures ApplyRules(order, ReleasesUrl(appData["owner"], appData["repo"]), regex) == CacheRequestKey(ft, appData)[0]
  {
    NoRulesNoOrder(hubData, order);
  }

  /** `check_app_available`. `status` is the status of the HEAD request,
      or `None` when the URL does not parse or the request fails; the
      ghost `url` is where the request goes. */
  method CheckAvailable(appData: map<string, string>, hubData: map<string, string>,
                        status: Option<nat>, regex: RegexReplacer)
    returns (out: FOut<bool>, ghost url: string)
    ensures "owner" !in appData ==> out == MissingField(MissingOwner)
    ensures "owner" in appData && "repo" !in appData ==> out == MissingField(MissingRepo)
    ensures "owner" in appData && "repo" in appData ==>
              out == NewOut(status.Some? && HttpStatusIsOk(status.value))
              && exists order :: EnumeratesRules(hubData, order)
                                 && url == ApplyRules(order, RepoUrl(appData["owner"], appData["repo"]), regex)
  {
    url := "";
    if "owner" !in appData {
      return MissingField(MissingOwner), url;
    }
    if "repo" !in appData {
      return MissingField(MissingRepo), url;
    }
    ghost var order;
    url, order := ReplaceProxyUrl(hubData, RepoUrl(appData["owner"], appData["repo"]), regex);
    if status.Some? {
      out := NewOut(HttpStatusIsOk(status.value));
    } else {
      out := NewOut(false);
    }
  }
}
