/** packages/getter-provider/src/providers/gitlab.rs: the GitLab provider.
    The HTTP exchange is a parameter (`HttpAnswer`), and so are the two
    foreign pieces the provider calls: `urlencoding::encode` and the
    UTF-8 check plus `serde_json::from_str` on the body (`decode`). */
module GitLab {
  import opened Wrappers
  import opened Strings
  import opened JsonValues
  import opened Releases
  import opened BaseProvider

  const GitlabApiBase := "https://gitlab.com/api/v4"
  const DefaultHost := "gitlab.com"
  const UserAgent := "getter-provider"

  // ---------------------------------------------------------------------
  // URLs and headers

  /** `get_api_base`: the API root of a custom host, or of gitlab.com. */
  function ApiBase(host: Option<string>): (r: string)
    ensures StartsWith(r, "https://") && EndsWith(r, "/api/v4")
    ensures host.Some? ==> |r| == |host.value| + 15
  {
    if host.Some? then "https://" + host.value + "/api/v4" else GitlabApiBase
  }

  /** No host is the same as the host gitlab.com, and a custom host can be
      read back from its API root, so two hosts never share one. */
  lemma ApiBaseHost(host: string)
    ensures ApiBase(None) == ApiBase(Some(DefaultHost))
    ensures ApiBase(Some(host))[8..|host| + 8] == host
  {
    var dflt := "https://" + DefaultHost + "/api/v4";
    assert forall i :: 0 <= i < |dflt| ==> dflt[i] == GitlabApiBase[i];
    assert dflt == GitlabApiBase;
    var r := "https://" + host + "/api/v4";
    assert r == ApiBase(Some(host));
    assert r[8..|host| + 8] == host;
  }

  /** The project resource of `get_project_url`; `encode` is
      `urlencoding::encode`. */
  function ProjectUrl(projectId: string, host: Option<string>, encode: string -> string): (r: string)
    ensures StartsWith(r, ApiBase(host) + "/projects/") && EndsWith(r, encode(projectId))
    ensures |r| == |ApiBase(host)| + 10 + |encode(projectId)|
  {
    ApiBase(host) + "/projects/" + encode(projectId)
  }

  /** The release list of `get_releases_url`, a sub-resource of the
      project. */
  function ReleasesUrl(projectId: string, host: Option<string>, encode: string -> string): (r: string)
    ensures r == ProjectUrl(projectId, host, encode) + "/releases"
  {
    ApiBase(host) + "/projects/" + encode(projectId) + "/releases"
  }

  /** The release list with the page size `get_releases` asks for. */
  function PagedReleasesUrl(projectId: string, host: Option<string>, encode: string -> string): string {
    ReleasesUrl(projectId, host, encode) + "?per_page=50"
  }

  /** A string starts with any of its prefixes. */
  lemma PrefixOfConcat(x: string, y: string)
    ensures StartsWith(x + y, x)
  {
    assert (x + y)[..|x|] == x;
  }

  /** Every request goes to the project resource or below it. */
  lemma UrlsExtendProject(projectId: string, host: Option<string>, encode: string -> string)
    ensures ReleasesUrl(projectId, host, encode) == ProjectUrl(projectId, host, encode) + "/releases"
    ensures StartsWith(PagedReleasesUrl(projectId, host, encode), ReleasesUrl(projectId, host, encode))
    ensures StartsWith(ReleasesUrl(projectId, host, encode), ApiBase(host))
  {
    var b, e := ApiBase(host), encode(projectId);
    PrefixOfConcat(ReleasesUrl(projectId, host, encode), "?per_page=50");
    assert ReleasesUrl(projectId, host, encode) == b + ("/projects/" + e + "/releases");
    PrefixOfConcat(b, "/projects/" + e + "/releases");
  }

  /** The headers of every request: the user agent always, a bearer
      `Authorization` exactly when there is an access token. */
  predicate HeadersFor(headers: map<string, string>, token: Option<string>) {
    && headers.Keys <= {"User-Agent", "Authorization"}
    && "User-Agent" in headers && headers["User-Agent"] == UserAgent
    && ("Authorization" in headers <==> token.Some?)
    && (token.Some? ==> headers["Authorization"] == "Bearer " + token.value)
  }

  /** `build_headers`. */
  method BuildHeaders(token: Option<string>) returns (headers: map<string, string>)
    ensures HeadersFor(headers, token)
  {
    headers := map["User-Agent" := UserAgent];
    if token.Some? {
      headers := headers["Authorization" := "Bearer " + token.value];
    }
  }

  /** The hub's `gitlab_host`, when set. */
  function HostOf(hubData: map<string, string>): Option<string> {
    if "gitlab_host" in hubData then Some(hubData["gitlab_host"]) else None
  }

  /** The hub's `access_token`, when set. */
  function TokenOf(hubData: map<string, string>): Option<string> {
    if "access_token" in hubData then Some(hubData["access_token"]) else None
  }

  /** `include_prereleases` holds only for the literal "true". */
  predicate IncludePrereleases(hubData: map<string, string>) {
    "include_prereleases" in hubData && hubData["include_prereleases"] == "true"
  }

  // ---------------------------------------------------------------------
  // Reading one release of the API answer

  /** One link of `assets.links`: its name and URL must be strings; the
      type is its `link_type`, or "unknown". */
  function LinkAsset(link: Json): (r: Option<AssetData>)
    ensures r.Some? <==> GetStr(link, "name").Some? && GetStr(link, "url").Some?
    ensures r.Some? ==> r.value.fileName == GetStr(link, "name").value
                        && r.value.downloadUrl == GetStr(link, "url").value
    ensures r.Some? ==> r.value.fileType == GetStr(link, "link_type").GetOr("unknown")
  {
    match (GetStr(link, "name"), GetStr(link, "url"))
    case (Some(name), Some(url)) => Some(AssetData(name, GetStr(link, "link_type").GetOr("unknown"), url))
    case _ => None
  }

  const OctetStream := "application/octet-stream"

  /** The content type of a source archive format. */
  function MimeType(format: string): (t: string)
    ensures t != OctetStream <==> format in {"zip", "tar.gz", "tar.bz2", "tar"}
  {
    match format
    case "zip" => "application/zip"
    case "tar.gz" => "application/gzip"
    case "tar.bz2" => "application/x-bzip2"
    case "tar" => "application/x-tar"
    case _ => OctetStream
  }

  /** The four known formats get four different content types. */
  lemma MimeTypesDistinct(f: string, g: string)
    requires f in {"zip", "tar.gz", "tar.bz2", "tar"} && g in {"zip", "tar.gz", "tar.bz2", "tar"}
    requires MimeType(f) == MimeType(g)
    ensures f == g
  {
  }

  /** One source archive of `assets.sources`: its format and URL must be
      strings; it is named after the tag and the format. */
  function SourceAsset(source: Json, tag: string): (r: Option<AssetData>)
    ensures r.Some? <==> GetStr(source, "format").Some? && GetStr(source, "url").Some?
    ensures r.Some? ==> r.value.fileName == tag + "." + GetStr(source, "format").value
                        && r.value.fileType == MimeType(GetStr(source, "format").value)
                        && r.value.downloadUrl == GetStr(source, "url").value
  {
    match (GetStr(source, "format"), GetStr(source, "url"))
    case (Some(format), Some(url)) => Some(AssetData(tag + "." + format, MimeType(format), url))
    case _ => None
  }

  /** All links as assets, or none when one of them is malformed. */
  function LinkAssets(links: seq<Json>): (r: Option<seq<AssetData>>)
    ensures r.Some? <==> forall i :: 0 <= i < |links| ==> LinkAsset(links[i]).Some?
    ensures r.Some? ==> |r.value| == |links|
    ensures r.Some? ==> forall i :: 0 <= i < |links| ==> r.value[i] == LinkAsset(links[i]).value
    decreases |links|
  {
    if links == [] then Some([])
    else
      match (LinkAsset(links[0]), LinkAssets(links[1..]))
      case (Some(a), Some(rest)) => Some([a] + rest)
      case _ => None
  }

  /** All sources as assets, or none when one of them is malformed. */
  function SourceAssets(sources: seq<Json>, tag: string): (r: Option<seq<AssetData>>)
    ensures r.Some? <==> forall i :: 0 <= i < |sources| ==> SourceAsset(sources[i], tag).Some?
    ensures r.Some? ==> |r.value| == |sources|
    ensures r.Some? ==> forall i :: 0 <= i < |sources| ==> r.value[i] == SourceAsset(sources[i], tag).value
    decreases |sources|
  {
    if sources == [] then Some([])
    else
      match (SourceAsset(sources[0], tag), SourceAssets(sources[1..], tag))
      case (Some(a), Some(rest)) => Some([a] + rest)
      case _ => None
  }

  /** `release["assets"][key]` when it is an array; nothing otherwise. */
  function AssetList(release: Json, key: string): seq<Json> {
    match Get(release, "assets")
    case Some(assets) => GetArr(assets, key).GetOr([])
    case None => []
  }

  /** What `parse_release_data` makes of one release: nothing without a
      string `tag_name` or with a malformed link or source; otherwise the
      tag as version, the description (or "") as changelog, the links and
      then the sources as assets, and no extra. */
  function ReleaseOf(release: Json): (r: Option<ReleaseData>)
    ensures r.Some? <==> GetStr(release, "tag_name").Some?
                         && LinkAssets(AssetList(release, "links")).Some?
                         && SourceAssets(AssetList(release, "sources"), GetStr(release, "tag_name").value).Some?
    ensures r.Some? ==> r.value.versionNumber == GetStr(release, "tag_name").value
                        && r.value.changelog == GetStr(release, "description").GetOr("")
                        && r.value.extra.None?
    ensures r.Some? ==>
              r.value.assets == LinkAssets(AssetList(release, "links")).value
                                + SourceAssets(AssetList(release, "sources"), r.value.versionNumber).value
  {
    match GetStr(release, "tag_name")
    case None => None
    case Some(tag) =>
      match (LinkAssets(AssetList(release, "links")), SourceAssets(AssetList(release, "sources"), tag))
      case (Some(links), Some(sources)) =>
        Some(ReleaseData(tag, GetStr(release, "description").GetOr(""), links + sources, None))
      case _ => None
  }

  /** The first loop of `parse_release_data`: the links pushed in
      order, giving up on the first malformed one. */
  method CollectLinks(links: seq<Json>) returns (r: Option<seq<AssetData>>)
    ensures r == LinkAssets(links)
  {
    var assets: seq<AssetData> := [];
    var i := 0;
    while i < |links|
      invariant 0 <= i <= |links| && |assets| == i
      invariant forall j :: 0 <= j < i ==> LinkAsset(links[j]).Some? && assets[j] == LinkAsset(links[j]).value
    {
      var asset := LinkAsset(links[i]);
      if asset.None? {
        assert !LinkAsset(links[i]).Some?;
        return None;
      }
      assets := assets + [asset.value];
      i := i + 1;
    }
    assert assets == LinkAssets(links).value;
    r := Some(assets);
  }

  /** The second loop of `parse_release_data`: the source archives pushed
      in order, giving up on the first malformed one. */
  method CollectSources(sources: seq<Json>, tag: string) returns (r: Option<seq<AssetData>>)
    ensures r == SourceAssets(sources, tag)
  {
    var assets: seq<AssetData> := [];
    var i := 0;
    while i < |sources|
      invariant 0 <= i <= |sources| && |assets| == i
      invariant forall j :: 0 <= j < i ==>
                  SourceAsset(sources[j], tag).Some? && assets[j] == SourceAsset(sources[j], tag).value
    {
      var asset := SourceAsset(sources[i], tag);
      if asset.None? {
        assert !SourceAsset(sources[i], tag).Some?;
        return None;
      }
      assets := assets + [asset.value];
      i := i + 1;
    }
    assert assets == SourceAssets(sources, tag).value;
    r := Some(assets);
  }

  /** `parse_release_data`. */
  method ParseReleaseData(release: Json) returns (r: Option<ReleaseData>)
    ensures r == ReleaseOf(release)
  {
    var tag := GetStr(release, "tag_name");
    if tag.None? {
      return None;
    }
    var changelog := GetStr(release, "description").GetOr("");
    var links := CollectLinks(AssetList(release, "links"));
    if links.None? {
      return None;
    }
    var sources := CollectSources(AssetList(release, "sources"), tag.value);
    if sources.None? {
      return None;
    }
    r := Some(ReleaseData(tag.value, changelog, links.value + sources.value, None));
  }

  /** The releases that parse, in the order of the API answer. */
  function ParsedReleases(items: seq<Json>): (r: seq<ReleaseData>)
    ensures |r| <= |items|
    ensures forall x :: x in r ==> exists j :: j in items && ReleaseOf(j) == Some(x)
    decreases |items|
  {
    if items == [] then []
    else
      var rest := ParsedReleases(items[1..]);
      assert forall j :: j in items[1..] ==> j in items;
      match ReleaseOf(items[0])
      case Some(x) => [x] + rest
      case None => rest
  }

  /** A release that parses is kept, in front of the releases after it;
      one that does not is dropped. */
  lemma ParsedReleaseKept(j: Json, items: seq<Json>)
    ensures ReleaseOf(j).Some? ==> ParsedReleases([j] + items) == [ReleaseOf(j).value] + ParsedReleases(items)
    ensures ReleaseOf(j).None? ==> ParsedReleases([j] + items) == ParsedReleases(items)
  {
    assert ([j] + items)[0] == j && ([j] + items)[1..] == items;
  }

  /** The filter keeps the order of the answer: two blocks are filtered
      block by block. */
  lemma {:induction false} ParsedReleasesAppend(a: seq<Json>, b: seq<Json>)
    ensures ParsedReleases(a + b) == ParsedReleases(a) + ParsedReleases(b)
    decreases |a|
  {
    if a == [] {
      assert a + b == b;
    } else {
      assert (a + b)[0] == a[0] && (a + b)[1..] == a[1..] + b;
      ParsedReleasesAppend(a[1..], b);
    }
  }

  /** `as_array().map(filter_map(parse_release_data)).unwrap_or_default()`:
      an answer that is not an array has no releases. */
  function ReleasesFrom(data: Json): (r: seq<ReleaseData>)
    ensures !data.JArr? ==> r == []
    ensures data.JArr? ==> r == ParsedReleases(data.items)
  {
    if data.JArr? then ParsedReleases(data.items) else []
  }

  // ---------------------------------------------------------------------
  // The pre-release filter

  /** A version carrying one of the usual pre-release markers. */
  predicate IsPrerelease(version: string) {
    Contains(version, "-alpha") || Contains(version, "-beta") || Contains(version, "-rc")
    || Contains(version, "-pre") || Contains(version, "-dev")
  }

  /** The releases without a pre-release marker, in order. */
  function Stable(releases: seq<ReleaseData>): (r: seq<ReleaseData>)
    ensures |r| <= |releases|
    ensures forall x :: x in r ==> x in releases && !IsPrerelease(x.versionNumber)
    ensures forall x :: x in releases && !IsPrerelease(x.versionNumber) ==> x in r
    decreases |releases|
  {
    if releases == [] then []
    else
      var rest := Stable(releases[1..]);
      assert forall x :: x in releases ==> x == releases[0] || x in releases[1..];
      if IsPrerelease(releases[0].versionNumber) then rest else [releases[0]] + rest
  }

  /** Filtering a concatenation filters each part: the order of the kept
      releases is the order they came in. */
  lemma {:induction false} StableAppend(a: seq<ReleaseData>, b: seq<ReleaseData>)
    ensures Stable(a + b) == Stable(a) + Stable(b)
    decreases |a|
  {
    if a != [] {
      assert (a + b)[0] == a[0] && (a + b)[1..] == a[1..] + b;
      StableAppend(a[1..], b);
      assert Stable(a + b) == if IsPrerelease(a[0].versionNumber) then Stable(a[1..] + b)
                              else [a[0]] + Stable(a[1..] + b);
      if !IsPrerelease(a[0].versionNumber) {
        assert [a[0]] + (Stable(a[1..]) + Stable(b)) == ([a[0]] + Stable(a[1..])) + Stable(b);
      }
    } else {
      assert a + b == b;
    }
  }

  /** Filtering twice is filtering once. */
  lemma {:induction false} StableIdempotent(releases: seq<ReleaseData>)
    ensures Stable(Stable(releases)) == Stable(releases)
    decreases |releases|
  {
    if releases != [] {
      StableIdempotent(releases[1..]);
      if !IsPrerelease(releases[0].versionNumber) {
        assert ([releases[0]] + Stable(releases[1..]))[1..] == Stable(releases[1..]);
      }
    }
  }

  /** `filter_prereleases`: everything when pre-releases are wanted,
      otherwise exactly the releases without a marker. */
  function FilterPrereleases(releases: seq<ReleaseData>, keepPre: bool): (r: seq<ReleaseData>)
    ensures keepPre ==> r == releases
    ensures |r| <= |releases| && forall x :: x in r ==> x in releases
    ensures !keepPre ==> forall x :: x in r <==> x in releases && !IsPrerelease(x.versionNumber)
  {
    if keepPre then releases else Stable(releases)
  }

  // ---------------------------------------------------------------------
  // Cache keys

  function BoolText(b: bool): string {
    if b then "true" else "false"
  }

  function KeyPrefix(ft: FunctionType): string {
    match ft
    case CheckAppAvailable => "gitlab:check:"
    case GetLatestRelease => "gitlab:latest:"
    case GetReleases => "gitlab:releases:"
  }

  /** The project in a cache key: `project_id`, or "unknown". */
  function ProjectOrUnknown(appData: map<string, string>): string {
    if "project_id" in appData then appData["project_id"] else "unknown"
  }

  /** `get_cache_request_key`: host and project (defaulting to gitlab.com
      and "unknown"), and for the release calls whether pre-releases are
      included. */
  function CacheRequestKey(ft: FunctionType, appData: map<string, string>, hubData: map<string, string>)
    : (keys: seq<string>)
    ensures |keys| == 1 && StartsWith(keys[0], KeyPrefix(ft))
    ensures ft.CheckAppAvailable? ==>
              keys[0] == KeyPrefix(ft) + (HostOf(hubData).GetOr(DefaultHost) + ":" + ProjectOrUnknown(appData))
    ensures !ft.CheckAppAvailable? ==>
              keys[0] == KeyPrefix(ft) + (HostOf(hubData).GetOr(DefaultHost) + ":" + ProjectOrUnknown(appData)
                                          + ":" + BoolText(IncludePrereleases(hubData)))
  {
    var core := HostOf(hubData).GetOr(DefaultHost) + ":" + ProjectOrUnknown(appData);
    var rest := if ft.CheckAppAvailable? then core else core + ":" + BoolText(IncludePrereleases(hubData));
    PrefixOfConcat(KeyPrefix(ft), rest);
    [KeyPrefix(ft) + rest]
  }

  /** The three calls never share a key. */
  lemma KeysSeparateCalls(ft1: FunctionType, ft2: FunctionType, appData: map<string, string>,
                          hubData: map<string, string>, appData2: map<string, string>, hubData2: map<string, string>)
    requires ft1 != ft2
    ensures CacheRequestKey(ft1, appData, hubData) != CacheRequestKey(ft2, appData2, hubData2)
  {
    var k1, k2 := CacheRequestKey(ft1, appData, hubData)[0], CacheRequestKey(ft2, appData2, hubData2)[0];
    assert k1[7] == KeyPrefix(ft1)[7] && k2[7] == KeyPrefix(ft2)[7];
  }

  /** Missing fields count as their defaults, and any `include_prereleases`
      other than "true" counts as false. */
  lemma KeyDefaults(ft: FunctionType, appData: map<string, string>, hubData: map<string, string>, flag: string)
    requires flag != "true"
    ensures "project_id" !in appData ==>
              CacheRequestKey(ft, appData, hubData) == CacheRequestKey(ft, appData["project_id" := "unknown"], hubData)
    ensures "gitlab_host" !in hubData ==>
              CacheRequestKey(ft, appData, hubData) == CacheRequestKey(ft, appData, hubData["gitlab_host" := DefaultHost])
    ensures CacheRequestKey(ft, appData, hubData["include_prereleases" := flag])
            == CacheRequestKey(ft, appData, hubData - {"include_prereleases"})
  {
  }

  // ---------------------------------------------------------------------
  // The three calls

  /** How one HTTP request ended: the URL did not parse, the request
      failed, or the server answered with a status and maybe a body. */
  datatype HttpAnswer = BadUrl(reason: string) | RequestFailed(reason: string) | Answered(status: nat, body: Option<Bytes>)

  /** The body read as UTF-8 text and parsed as JSON. */
  datatype Decoded = NotUtf8(reason: string) | NotJson(reason: string) | Parsed(value: Json)

  /** A request: where it goes and with which headers. */
  datatype Request = Request(url: string, headers: map<string, string>)

  const MissingProject := "Missing project_id in app_data"

  /** An error result without cache, as `new_empty().set_error(..)` builds. */
  function Failure<T>(message: string): (out: FOut<T>)
    ensures out.result == Error(Other, message) && out.cachedMap.None?
  {
    SetError(NewEmpty(), Other, message)
  }

  /** The answer to the availability request: 200 is available, 404 is
      not, anything else is an error. */
  function AvailabilityOutcome(answer: HttpAnswer): (out: FOut<bool>)
    ensures out.cachedMap.None?
    ensures out.result.Done? <==> answer.Answered? && answer.status in {200, 404}
    ensures out.result.Done? ==> (out.result.value <==> answer.status == 200)
    ensures answer.BadUrl? ==> out.result.message == "Invalid URL: " + answer.reason
    ensures answer.RequestFailed? ==> out.result.message == "Request failed: " + answer.reason
    ensures answer.Answered? && answer.status !in {200, 404} ==>
              out.result.message == "HTTP error: " + NatToString(answer.status)
  {
    match answer
    case BadUrl(reason) => Failure("Invalid URL: " + reason)
    case RequestFailed(reason) => Failure("Request failed: " + reason)
    case Answered(status, _) =>
      if status == 200 then NewOut(true)
      else if status == 404 then NewOut(false)
      else Failure("HTTP error: " + NatToString(status))
  }

  /** `check_app_available`; `answer` is how the request it sends ended,
      and a URL that does not parse (`BadUrl`) sends none. */
  method CheckAvailable(appData: map<string, string>, hubData: map<string, string>,
                        encode: string -> string, answer: HttpAnswer)
    returns (out: FOut<bool>, request: Option<Request>)
    ensures "project_id" !in appData ==> out == Failure(MissingProject) && request.None?
    ensures "project_id" in appData ==>
              && out == AvailabilityOutcome(answer)
              && (request.Some? <==> !answer.BadUrl?)
              && (request.Some? ==>
                    request.value.url == ProjectUrl(appData["project_id"], HostOf(hubData), encode)
                    && HeadersFor(request.value.headers, TokenOf(hubData)))
  {
    if "project_id" !in appData {
      return Failure(MissingProject), None;
    }
    var url := ProjectUrl(appData["project_id"], HostOf(hubData), encode);
    var headers := BuildHeaders(TokenOf(hubData));
    request := if answer.BadUrl? then None else Some(Request(url, headers));
    out := AvailabilityOutcome(answer);
  }

  /** The steps both release calls share: a 200 answer, a body (empty
      when there is none) that decodes, and the parsed releases after the
      pre-release filter, returned with the body. */
  function ReleasesResponse(answer: HttpAnswer, decode: Bytes -> Decoded, keepPre: bool)
    : (r: FResult<(Bytes, seq<ReleaseData>)>)
    ensures r.Done? <==> answer.Answered? && answer.status == 200 && decode(answer.body.GetOr([])).Parsed?
    ensures r.Done? ==> r.value.0 == answer.body.GetOr([])
                        && r.value.1 == FilterPrereleases(ReleasesFrom(decode(r.value.0).value), keepPre)
    ensures r.Error? ==> r.kind == Other
    ensures answer.BadUrl? ==> r.message == "Invalid URL: " + answer.reason
    ensures answer.RequestFailed? ==> r.message == "Request failed: " + answer.reason
    ensures answer.Answered? && answer.status != 200 ==> r.message == "HTTP error: " + NatToString(answer.status)
    ensures answer.Answered? && answer.status == 200 && decode(answer.body.GetOr([])).NotUtf8? ==>
              r.message == "Failed to read response: " + decode(answer.body.GetOr([])).reason
    ensures answer.Answered? && answer.status == 200 && decode(answer.body.GetOr([])).NotJson? ==>
              r.message == "Failed to parse JSON: " + decode(answer.body.GetOr([])).reason
  {
    match answer
    case BadUrl(reason) => Error(Other, "Invalid URL: " + reason)
    case RequestFailed(reason) => Error(Other, "Request failed: " + reason)
    case Answered(status, body) =>
      if status != 200 then Error(Other, "HTTP error: " + NatToString(status))
      else
        var bytes := body.GetOr([]);
        match decode(bytes)
        case NotUtf8(reason) => Error(Other, "Failed to read response: " + reason)
        case NotJson(reason) => Error(Other, "Failed to parse JSON: " + reason)
        case Parsed(data) => Done((bytes, FilterPrereleases(ReleasesFrom(data), keepPre)))
  }

  const NoReleases := "No releases found"

  /** What `get_latest_release` returns once the URL is known: the first
      release that survives the filter, cached under the URL with the
      whole body. */
  function LatestOutcome(url: string, answer: HttpAnswer, decode: Bytes -> Decoded, keepPre: bool)
    : (out: FOut<ReleaseData>)
    ensures out.result.Done? <==> ReleasesResponse(answer, decode, keepPre).Done?
                                  && ReleasesResponse(answer, decode, keepPre).value.1 != []
    ensures out.result.Done? ==>
              var (body, releases) := ReleasesResponse(answer, decode, keepPre).value;
              out.result.value == releases[0] && out.cachedMap == Some(map[url := body])
    ensures out.result.Error? ==> out.cachedMap.None?
    ensures ReleasesResponse(answer, decode, keepPre).Done? && ReleasesResponse(answer, decode, keepPre).value.1 == []
            ==> out.result == Error(Other, NoReleases)
  {
    match ReleasesResponse(answer, decode, keepPre)
    case Error(_, message) => Failure(message)
    case Done((body, releases)) =>
      if releases == [] then Failure(NoReleases)
      else SetCache(NewOut(releases[0]), url, body)
  }

  /** What `get_releases` returns once the URL is known: all releases
      that survive the filter, cached under the URL with the whole body. */
  function ListOutcome(url: string, answer: HttpAnswer, decode: Bytes -> Decoded, keepPre: bool)
    : (out: FOut<seq<ReleaseData>>)
    ensures out.result.Done? <==> ReleasesResponse(answer, decode, keepPre).Done?
    ensures out.result.Done? ==>
              var (body, releases) := ReleasesResponse(answer, decode, keepPre).value;
              out.result.value == releases && out.cachedMap == Some(map[url := body])
    ensures out.result.Error? ==>
              out.cachedMap.None? && out.result == Error(Other, ReleasesResponse(answer, decode, keepPre).message)
  {
    match ReleasesResponse(answer, decode, keepPre)
    case Error(_, message) => Failure(message)
    case Done((body, releases)) => SetCache(NewOut(releases), url, body)
  }

  /** On the same answer, the latest release is the head of the list, the
      empty list is "No releases found", and errors agree. */
  lemma LatestIsHeadOfList(url1: string, url2: string, answer: HttpAnswer, decode: Bytes -> Decoded, keepPre: bool)
    ensures var list := ListOutcome(url2, answer, decode, keepPre).result;
            var latest := LatestOutcome(url1, answer, decode, keepPre).result;
            && (list.Error? ==> latest == Error(list.kind, list.message))
            && (list.Done? && list.value == [] ==> latest == Error(Other, NoReleases))
            && (list.Done? && list.value != [] ==> latest == Done(list.value[0]))
  {
  }

  /** Without pre-releases asked for, the latest release never carries a
      pre-release marker. */
  lemma LatestIsStable(url: string, answer: HttpAnswer, decode: Bytes -> Decoded)
    ensures LatestOutcome(url, answer, decode, false).result.Done? ==>
              !IsPrerelease(LatestOutcome(url, answer, decode, false).result.value.versionNumber)
  {
    var response := ReleasesResponse(answer, decode, false);
    if response.Done? && response.value.1 != [] {
      assert response.value.1[0] in response.value.1;
    }
  }

  /** The release calls store the body under the request URL, which is
      never the key `get_cache_request_key` announces for them. */
  lemma CachedUnderUrlNotKey(ft: FunctionType, appData: map<string, string>, hubData: map<string, string>,
                             encode: string -> string)
    requires "project_id" in appData
    ensures ReleasesUrl(appData["project_id"], HostOf(hubData), encode) != CacheRequestKey(ft, appData, hubData)[0]
    ensures PagedReleasesUrl(appData["project_id"], HostOf(hubData), encode) != CacheRequestKey(ft, appData, hubData)[0]
  {
    var projectId := appData["project_id"];
    var base := ApiBase(HostOf(hubData));
    var url := ReleasesUrl(projectId, HostOf(hubData), encode);
    UrlsExtendProject(projectId, HostOf(hubData), encode);
    assert base[0] == 'h';
    assert url[0] == 'h';
    assert PagedReleasesUrl(projectId, HostOf(hubData), encode)[0] == 'h';
    var key := CacheRequestKey(ft, appData, hubData)[0];
    assert KeyPrefix(ft)[0] == 'g';
    assert key[0] == 'g';
  }

  /** `get_latest_release`. */
  method FetchLatest(appData: map<string, string>, hubData: map<string, string>,
                     encode: string -> string, answer: HttpAnswer, decode: Bytes -> Decoded)
    returns (out: FOut<ReleaseData>, request: Option<Request>)
    ensures "project_id" !in appData ==> out == Failure(MissingProject) && request.None?
    ensures "project_id" in appData ==>
              var url := ReleasesUrl(appData["project_id"], HostOf(hubData), encode);
              && out == LatestOutcome(url, answer, decode, IncludePrereleases(hubData))
              && (request.Some? <==> !answer.BadUrl?)
              && (request.Some? ==> request.value.url == url && HeadersFor(request.value.headers, TokenOf(hubData)))
  {
    if "project_id" !in appData {
      return Failure(MissingProject), None;
    }
    var keepPre := IncludePrereleases(hubData);
    var url := ReleasesUrl(appData["project_id"], HostOf(hubData), encode);
    var headers := BuildHeaders(TokenOf(hubData));
    request := if answer.BadUrl? then None else Some(Request(url, headers));
    out := LatestOutcome(url, answer, decode, keepPre);
  }

  /** `get_releases`: the same request with a page of 50. */
  method FetchReleases(appData: map<string, string>, hubData: map<string, string>,
                       encode: string -> string, answer: HttpAnswer, decode: Bytes -> Decoded)
    returns (out: FOut<seq<ReleaseData>>, request: Option<Request>)
    ensures "project_id" !in appData ==> out == Failure(MissingProject) && request.None?
    ensures "project_id" in appData ==>
              var url := PagedReleasesUrl(appData["project_id"], HostOf(hubData), encode);
              && out == ListOutcome(url, answer, decode, IncludePrereleases(hubData))
              && (request.Some? <==> !answer.BadUrl?)
              && (request.Some? ==> request.value.url == url && HeadersFor(request.value.headers, TokenOf(hubData)))
  {
    if "project_id" !in appData {
      return Failure(MissingProject), None;
    }
    var keepPre := IncludePrereleases(hubData);
    var url := PagedReleasesUrl(appData["project_id"], HostOf(hubData), encode);
    var headers := BuildHeaders(TokenOf(hubData));
    request := if answer.BadUrl? then None else Some(Request(url, headers));
    out := ListOutcome(url, answer, decode, keepPre);
  }
}
