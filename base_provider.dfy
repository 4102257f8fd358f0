/** src/websdk/repo/provider/base_provider.rs: what every provider shares.
    This covers the input cache a call receives (`FIn`), the result and
    cache a call returns (`FOut`), the default `get_latest_release`, and
    the reverse-proxy rules a hub can declare to rewrite download URLs.
    Byte strings are `seq<bv8>`; the boxed error of `FOut` is its I/O kind
    and message. */
module BaseProvider {
  import opened Wrappers
  import opened Collections
  import opened Strings
  import opened Releases

  type Bytes = seq<bv8>

  /** `FIn::get_cache`: a value only when the call was given a cache that
      holds the key. */
  function GetCache(cacheMap: Option<map<string, Bytes>>, key: string): (r: Option<Bytes>)
    ensures r.Some? <==> cacheMap.Some? && key in cacheMap.value
    ensures r.Some? ==> r.value == cacheMap.value[key]
  {
    match cacheMap
    case Some(m) => if key in m then Some(m[key]) else None
    case None => None
  }

  /** The `std::io::ErrorKind`s the shared code raises; provider-specific
      errors are `Other`. */
  datatype IoKind = Other | NotFound

  datatype FResult<T> = Done(value: T) | Error(kind: IoKind, message: string)

  datatype FOut<T> = FOut(result: FResult<T>, cachedMap: Option<map<string, Bytes>>)

  /** The three calls a provider answers; each has its own cache keys. */
  datatype FunctionType = CheckAppAvailable | GetLatestRelease | GetReleases

  /** `http_status_is_ok` (packages/getter-utils/src/http.rs): a status
      `StatusCode::from_u16` accepts (100 to 999) that is neither a
      client error (4xx) nor a server error (5xx). */
  predicate HttpStatusIsOk(status: nat) {
    100 <= status < 1000 && !(400 <= status < 600)
  }

  /** The statuses a provider treats as "available". */
  lemma HttpStatusClasses(status: nat)
    ensures 200 <= status < 400 ==> HttpStatusIsOk(status)
    ensures 400 <= status < 600 ==> !HttpStatusIsOk(status)
    ensures status < 100 || status >= 1000 ==> !HttpStatusIsOk(status)
  {
  }

  /** `FOut::new`: the data, no cache. */
  function NewOut<T>(data: T): (out: FOut<T>)
    ensures out.result == Done(data) && out.cachedMap.None?
  {
    FOut(Done(data), None)
  }

  /** `FOut::new_empty`: the "no data" error, no cache. */
  function NewEmpty<T>(): (out: FOut<T>)
    ensures out.result.Error? && out.result.message == "no data" && out.cachedMap.None?
  {
    FOut(Error(Other, "no data"), None)
  }

  /** `FOut::set_cache`: adds one entry, creating the map if there was
      none. */
  function SetCache<T>(out: FOut<T>, key: string, value: Bytes): (r: FOut<T>)
    ensures r.result == out.result
    ensures GetCache(r.cachedMap, key) == Some(value)
    ensures forall k :: k != key ==> GetCache(r.cachedMap, k) == GetCache(out.cachedMap, k)
  {
    var m := match out.cachedMap case Some(m) => m case None => map[];
    out.(cachedMap := Some(m[key := value]))
  }

  /** `FOut::set_error`: the result becomes the error; the cache stays. */
  function SetError<T>(out: FOut<T>, kind: IoKind, message: string): (r: FOut<T>)
    ensures r.result.Error? && r.result.kind == kind && r.result.message == message
    ensures r.cachedMap == out.cachedMap
  {
    out.(result := Error(kind, message))
  }

  /** `FOut::set_data`: the result becomes the data; the cache stays. */
  function SetData<T>(out: FOut<T>, data: T): (r: FOut<T>)
    ensures r.result.Done? && r.result.value == data
    ensures r.cachedMap == out.cachedMap
  {
    out.(result := Done(data))
  }

  /** `FOut::set_cached_map`: the whole cache is replaced; the result
      stays. */
  function SetCachedMap<T>(out: FOut<T>, cachedMap: map<string, Bytes>): (r: FOut<T>)
    ensures r.result == out.result
    ensures forall k :: GetCache(r.cachedMap, k) == (if k in cachedMap then Some(cachedMap[k]) else None)
  {
    out.(cachedMap := Some(cachedMap))
  }

  /** What a provider caches, a later call reads back: `set_cache` keeps
      the result and every other entry, and `set_data` / `set_error`
      touch only the result. */
  lemma CacheRoundTrip<T>(out: FOut<T>, key: string, value: Bytes, other: string, data: T, message: string)
    ensures GetCache(SetCache(out, key, value).cachedMap, key) == Some(value)
    ensures SetCache(out, key, value).result == out.result
    ensures other != key ==> GetCache(SetCache(out, key, value).cachedMap, other) == GetCache(out.cachedMap, other)
    ensures SetData(out, data).cachedMap == out.cachedMap && SetData(out, data).result == Done(data)
    ensures SetError(out, Other, message).cachedMap == out.cachedMap
    ensures GetCache(SetCachedMap(out, map[key := value]).cachedMap, key) == Some(value)
  {
  }

  /** The default `get_latest_release`: the first release, a `NotFound`
      "no data" error when there is none, the error of `get_releases`
      passed on, and its cache passed through. */
  function LatestRelease(releases: FOut<seq<ReleaseData>>): (out: FOut<ReleaseData>)
    ensures out.cachedMap == releases.cachedMap
    ensures releases.result.Error? ==> out.result == Error(releases.result.kind, releases.result.message)
    ensures releases.result.Done? && releases.result.value != [] ==> out.result == Done(releases.result.value[0])
    ensures releases.result.Done? && releases.result.value == [] ==> out.result == Error(NotFound, "no data")
  {
    var result := match releases.result
      case Done(rs) => if rs != [] then Done(rs[0]) else Error(NotFound, "no data")
      case Error(kind, message) => Error(kind, message);
    FOut(result, releases.cachedMap)
  }

  const ReverseProxy := "reverse_proxy"
  const RegexPrefix := "regex:"

  /** A line without the one carriage return that ends it, if any. */
  function StripCr(line: string): (r: string)
    ensures line == r || line == r + "\r"
  {
    if |line| > 0 && line[|line| - 1] == '\r' then line[..|line| - 1] else line
  }

  /** Rust `str::lines`: the pieces between line feeds, without a final
      empty piece after a trailing line feed; a piece ended by a line feed
      loses one carriage return before it ("\r\n"), while a last piece
      with no line feed after it keeps its own. */
  function Lines(s: string): (r: seq<string>)
    ensures s == "" ==> r == []
    ensures s != "" ==>
              var parts := Split(s, "\n");
              && |r| == (if parts[|parts| - 1] == "" then |parts| - 1 else |parts|)
              && forall i :: 0 <= i < |r| ==> r[i] == (if i < |parts| - 1 then StripCr(parts[i]) else parts[i])
  {
    if s == "" then []
    else
      var parts := Split(s, "\n");
      var n := if parts[|parts| - 1] == "" then |parts| - 1 else |parts|;
      seq(n, i requires 0 <= i < n => if i < |parts| - 1 then StripCr(parts[i]) else parts[i])
  }

  /** Lines without line feeds, none ending in a carriage return and the
      last one not empty, come back from their text joined by line feeds. */
  lemma LinesJoin(lines: seq<string>)
    requires lines != [] && lines[|lines| - 1] != ""
    requires forall i :: 0 <= i < |lines| ==> !Contains(lines[i], "\n") && StripCr(lines[i]) == lines[i]
    ensures Lines(Join(lines, "\n")) == lines
  {
    forall i | 0 <= i < |lines|
      ensures !Contains(lines[i] + "\n"[..0], "\n")
    {
      assert lines[i] + "\n"[..0] == lines[i];
    }
    SplitJoin(lines, "\n");
    LinesOfSplit(Join(lines, "\n"), lines);
  }

  /** A text whose pieces between line feeds are `lines` has those lines. */
  lemma LinesOfSplit(text: string, lines: seq<string>)
    requires Split(text, "\n") == lines && lines[|lines| - 1] != ""
    requires forall i :: 0 <= i < |lines| ==> StripCr(lines[i]) == lines[i]
    ensures Lines(text) == lines
  {
    var r := Lines(text);
    assert |r| == |lines|;
    forall i | 0 <= i < |lines|
      ensures r[i] == lines[i]
    {
    }
  }

  /** One line `url_prefix -> proxy_url`: split at the first "->", both
      sides trimmed; without an arrow the proxy side is empty. */
  function ParseRule(line: string): (rule: (string, string))
  {
    match IndexOf(line, "->")
    case Some(i) => (Trim(line[..i]), Trim(line[i + 2..]))
    case None => (Trim(line), "")
  }

  /** The split is at the first arrow, so any later arrow stays in the
      proxy side. */
  lemma ParseRuleFirstArrow(prefix: string, rest: string)
    requires !Contains(prefix + "-", "->")
    ensures ParseRule(prefix + "->" + rest) == (Trim(prefix), Trim(rest))
  {
    var line := prefix + "->" + rest;
    assert "->"[..1] == "-";
    IndexOfAfterHead(prefix, "->", rest);
    assert line[..|prefix|] == prefix;
    assert line[|prefix| + 2..] == rest;
  }

  /** A line without an arrow declares no rule. */
  lemma ParseRuleNoArrow(line: string)
    requires !Contains(line, "->")
    ensures ParseRule(line).1 == ""
  {
  }

  /** A parsed line declares a rule when both of its sides are non-empty. */
  predicate IsRule(rule: (string, string)) {
    rule.0 != "" && rule.1 != ""
  }

  /** The pairs that are rules, in order. */
  function KeepRules(pairs: seq<(string, string)>): (r: seq<(string, string)>)
    ensures forall i :: 0 <= i < |r| ==> IsRule(r[i])
    ensures forall x :: x in r <==> x in pairs && IsRule(x)
    ensures |r| <= |pairs|
    decreases |pairs|
  {
    if pairs == [] then []
    else (if IsRule(pairs[0]) then [pairs[0]] else []) + KeepRules(pairs[1..])
  }

  /** Keeping the rules of two lists of pairs keeps the rules of the
      first followed by those of the second. */
  lemma {:induction false} KeepRulesAppend(a: seq<(string, string)>, b: seq<(string, string)>)
    ensures KeepRules(a + b) == KeepRules(a) + KeepRules(b)
    decreases |a|
  {
    if a == [] {
      assert a + b == b;
    } else {
      assert (a + b)[0] == a[0];
      assert (a + b)[1..] == a[1..] + b;
      KeepRulesAppend(a[1..], b);
    }
  }

  /** Every line parsed, in order. */
  function ParseAll(lines: seq<string>): (pairs: seq<(string, string)>)
    ensures |pairs| == |lines|
    ensures forall i :: 0 <= i < |lines| ==> pairs[i] == ParseRule(lines[i])
  {
    seq(|lines|, i requires 0 <= i < |lines| => ParseRule(lines[i]))
  }

  /** The rules of the lines, in order, with every pair that has an empty
      side dropped (membership is `RulesMembers`, order `RulesAppend`). */
  function Rules(lines: seq<string>): (r: seq<(string, string)>)
    ensures forall i :: 0 <= i < |r| ==> IsRule(r[i])
    ensures |r| <= |lines|
  {
    KeepRules(ParseAll(lines))
  }

  /** Each rule is the parse of a line, and every line that parses to a
      rule gives one. */
  lemma RulesMembers(lines: seq<string>)
    ensures forall x :: x in Rules(lines) ==> exists j :: 0 <= j < |lines| && x == ParseRule(lines[j])
    ensures forall j :: 0 <= j < |lines| && IsRule(ParseRule(lines[j])) ==> ParseRule(lines[j]) in Rules(lines)
  {
    var pairs := ParseAll(lines);
    forall x | x in Rules(lines)
      ensures exists j :: 0 <= j < |lines| && x == ParseRule(lines[j])
    {
      var j :| 0 <= j < |pairs| && pairs[j] == x;
    }
    forall j | 0 <= j < |lines| && IsRule(ParseRule(lines[j]))
      ensures ParseRule(lines[j]) in Rules(lines)
    {
      assert pairs[j] in pairs;
    }
  }

  /** The rules of two blocks of lines are the rules of the first block
      followed by those of the second: the order of the lines is kept. */
  lemma RulesAppend(a: seq<string>, b: seq<string>)
    ensures Rules(a + b) == Rules(a) + Rules(b)
  {
    assert ParseAll(a + b) == ParseAll(a) + ParseAll(b);
    KeepRulesAppend(ParseAll(a), ParseAll(b));
  }

  /** `collect::<HashMap<_, _>>()`: a later pair for the same prefix
      replaces an earlier one. */
  function ToMap(pairs: seq<(string, string)>): (m: map<string, string>)
    ensures forall k :: k in m ==> (k, m[k]) in pairs
    ensures forall p :: p in pairs ==> p.0 in m
    ensures pairs != [] ==> m[pairs[|pairs| - 1].0] == pairs[|pairs| - 1].1
  {
    if pairs == [] then map[]
    else ToMap(pairs[..|pairs| - 1])[pairs[|pairs| - 1].0 := pairs[|pairs| - 1].1]
  }

  /** A pair that no later pair overrides is in the map. */
  lemma {:induction false} ToMapLastOfKey(pairs: seq<(string, string)>, j: nat)
    requires j < |pairs|
    requires forall k :: j < k < |pairs| ==> pairs[k].0 != pairs[j].0
    ensures pairs[j].0 in ToMap(pairs) && ToMap(pairs)[pairs[j].0] == pairs[j].1
    decreases |pairs|
  {
    if j < |pairs| - 1 {
      var init := pairs[..|pairs| - 1];
      assert forall k :: j < k < |init| ==> init[k] == pairs[k];
      ToMapLastOfKey(init, j);
      assert init[j] == pairs[j];
    }
  }

  /** `url_proxy_map`: the rules of the hub's `reverse_proxy` text, or none
      without one. */
  function UrlProxyMap(hubData: map<string, string>): (m: map<string, string>)
    ensures ReverseProxy !in hubData ==> m == map[]
    ensures forall k :: k in m ==> k != "" && m[k] != ""
  {
    if ReverseProxy in hubData then
      var rules := Rules(Lines(hubData[ReverseProxy]));
      var m := ToMap(rules);
      assert forall k :: k in m ==> k != "" && m[k] != "" by {
        forall k | k in m
          ensures k != "" && m[k] != ""
        {
          var i :| 0 <= i < |rules| && rules[i] == (k, m[k]);
        }
      }
      m
    else map[]
  }

  /** With a `reverse_proxy` text, the map holds exactly the prefixes of
      its rules, each with the proxy of one of its rules. */
  lemma UrlProxyMapRules(hubData: map<string, string>)
    requires ReverseProxy in hubData
    ensures var rules := Rules(Lines(hubData[ReverseProxy]));
            && (forall k :: k in UrlProxyMap(hubData) ==> (k, UrlProxyMap(hubData)[k]) in rules)
            && (forall i :: 0 <= i < |rules| ==> rules[i].0 in UrlProxyMap(hubData))
  {
    var rules := Rules(Lines(hubData[ReverseProxy]));
    forall i | 0 <= i < |rules|
      ensures rules[i].0 in UrlProxyMap(hubData)
    {
      assert rules[i] in rules;
    }
  }

  /** Every rule a line declares, with both sides non-empty, is in force
      unless a later line declares the same prefix: of two rules for one
      prefix, the later one stays. */
  lemma LastRuleWins(hubData: map<string, string>, j: nat)
    requires ReverseProxy in hubData
    requires j < |Rules(Lines(hubData[ReverseProxy]))|
    requires var rules := Rules(Lines(hubData[ReverseProxy]));
             forall k :: j < k < |rules| ==> rules[k].0 != rules[j].0
    ensures var rules := Rules(Lines(hubData[ReverseProxy]));
            rules[j].0 in UrlProxyMap(hubData) && UrlProxyMap(hubData)[rules[j].0] == rules[j].1
  {
    ToMapLastOfKey(Rules(Lines(hubData[ReverseProxy])), j);
  }

  /** `Regex::new(pattern)` followed by `replace_all(text, replacement)`:
      the regex engine is not part of this model, so it is a parameter
      that answers `None` when the pattern does not compile. */
  type RegexReplacer = (string, string, string) -> Option<string>

  /** Every rule has a non-empty prefix, as `url_proxy_map` guarantees. */
  predicate NonEmptyPrefixes(rules: seq<(string, string)>) {
    forall i :: 0 <= i < |rules| ==> rules[i].0 != ""
  }

  /** One rule applied to the running URL: a "regex:" prefix is a trimmed
      pattern (ignored if it does not compile); any other prefix is
      literal text whose every occurrence is replaced. */
  function ApplyRule(rule: (string, string), url: string, regex: RegexReplacer): (r: string)
    requires rule.0 != ""
  {
    if StartsWith(rule.0, RegexPrefix) then
      match regex(Trim(rule.0[|RegexPrefix|..]), url, rule.1)
      case Some(replaced) => replaced
      case None => url
    else ReplaceAll(url, rule.0, rule.1)
  }

  /** The rules applied one after another, the first rule first. */
  function ApplyRules(rules: seq<(string, string)>, url: string, regex: RegexReplacer): (r: string)
    requires NonEmptyPrefixes(rules)
    ensures rules == [] ==> r == url
  {
    if rules == [] then url
    else ApplyRule(rules[|rules| - 1], ApplyRules(rules[..|rules| - 1], url, regex), regex)
  }

  /** A literal rule is a split at the prefix joined with the proxy, and a
      URL without the prefix is left alone. */
  lemma LiteralRuleIsJoinSplit(rule: (string, string), url: string, regex: RegexReplacer)
    requires rule.0 != "" && !StartsWith(rule.0, RegexPrefix)
    ensures ApplyRule(rule, url, regex) == Join(Split(url, rule.0), rule.1)
    ensures !Contains(url, rule.0) ==> ApplyRule(rule, url, regex) == url
  {
    ReplaceAllIsJoinSplit(url, rule.0, rule.1);
    if !Contains(url, rule.0) {
      ReplaceAllWithout(url, rule.0, rule.1);
    }
  }

  /** Neither "https" nor "github" is a "regex:" rule. */
  lemma LiteralExamples()
    ensures !StartsWith("https", RegexPrefix) && !StartsWith("github", RegexPrefix)
  {
    assert "github"[0] != RegexPrefix[0];
  }

  /** `ReplaceAll(head + from + tail, from, to)` for a `tail` lacking a
      character of `from` and a `head` that cannot hold a match. */
  lemma ReplaceOnce(s: string, head: string, from: string, to: string, tail: string, c: char)
    requires |from| > 0 && s == head + from + tail
    requires !Contains(head + from[..|from| - 1], from)
    requires c in from && c !in tail
    ensures ReplaceAll(s, from, to) == head + to + tail
  {
    ReplaceAfterHead(head, from, to, tail);
    MissingChar(tail, from, c);
    ReplaceAllWithout(tail, from, to);
  }

  /** The rule "https -> http" on a URL with one leading "https". */
  lemma HttpsToHttp(mid: string, word: string, tail: string)
    requires 's' !in mid && 's' !in word && 's' !in tail
    ensures ReplaceAll("https" + mid + word + tail, "https", "http") == "http" + mid + word + tail
  {
    var rest := mid + word + tail;
    assert "https"[..4] == "http";
    assert "https" + mid + word + tail == "" + "https" + rest;
    assert "http" + mid + word + tail == "" + "http" + rest;
    ReplaceOnce("" + "https" + rest, "", "https", "http", rest, 's');
  }

  /** The rule "github -> github-proxy" on a URL with one "github". */
  lemma GithubToProxy(head: string, tail: string)
    requires 'b' !in head && 'g' !in tail
    ensures ReplaceAll(head + "github" + tail, "github", "github-proxy") == head + "github-proxy" + tail
  {
    assert "github"[..5] == "githu";
    MissingChar(head + "githu", "github", 'b');
    ReplaceOnce(head + "github" + tail, head, "github", "github-proxy", tail, 'g');
  }

  /** Two rules apply the first, then the second. */
  lemma TwoRules(first: (string, string), second: (string, string), url: string, regex: RegexReplacer)
    requires first.0 != "" && second.0 != ""
    ensures ApplyRules([first, second], url, regex) == ApplyRule(second, ApplyRule(first, url, regex), regex)
  {
    var rules := [first, second];
    assert rules[..1] == [first] && rules[..1][..0] == [];
  }

  /** Two rules that do not interfere give the same URL in either order:
      "https -> http" and "github -> github-proxy" turn
      "https" + mid + "github" + tail (for instance "https://github.com")
      into "http" + mid + "github-proxy" + tail. */
  lemma ProxyRulesCompose(mid: string, tail: string, regex: RegexReplacer)
    requires 's' !in mid && 'b' !in mid && 's' !in tail && 'g' !in tail
    ensures ApplyRules([("https", "http"), ("github", "github-proxy")], "https" + mid + "github" + tail, regex)
            == "http" + mid + "github-proxy" + tail
    ensures ApplyRules([("github", "github-proxy"), ("https", "http")], "https" + mid + "github" + tail, regex)
            == "http" + mid + "github-proxy" + tail
  {
    LiteralExamples();
    TwoRules(("https", "http"), ("github", "github-proxy"), "https" + mid + "github" + tail, regex);
    TwoRules(("github", "github-proxy"), ("https", "http"), "https" + mid + "github" + tail, regex);
    HttpsFirst(mid, tail);
    GithubFirst(mid, tail);
  }

  lemma HttpsFirst(mid: string, tail: string)
    requires 's' !in mid && 'b' !in mid && 's' !in tail && 'g' !in tail
    ensures ReplaceAll(ReplaceAll("https" + mid + "github" + tail, "https", "http"), "github", "github-proxy")
            == "http" + mid + "github-proxy" + tail
  {
    assert 's' !in "github";
    HttpsToHttp(mid, "github", tail);
    assert 'b' !in "http" + mid;
    GithubToProxy("http" + mid, tail);
  }

  lemma GithubFirst(mid: string, tail: string)
    requires 's' !in mid && 'b' !in mid && 's' !in tail && 'g' !in tail
    ensures ReplaceAll(ReplaceAll("https" + mid + "github" + tail, "github", "github-proxy"), "https", "http")
            == "http" + mid + "github-proxy" + tail
  {
    assert 'b' !in "https" + mid;
    GithubToProxy("https" + mid, tail);
    assert 's' !in "github-proxy";
    HttpsToHttp(mid, "github-proxy", tail);
  }

  /** Applying one more rule of a list. */
  lemma ApplyRulesStep(rules: seq<(string, string)>, i: nat, url: string, regex: RegexReplacer)
    requires NonEmptyPrefixes(rules) && i < |rules|
    ensures NonEmptyPrefixes(rules[..i]) && NonEmptyPrefixes(rules[..i + 1])
    ensures ApplyRules(rules[..i + 1], url, regex) == ApplyRule(rules[i], ApplyRules(rules[..i], url, regex), regex)
  {
    assert rules[..i + 1][..i] == rules[..i];
  }

  /** The entries of a proxy map carry its keys, none of them empty. */
  lemma EntriesHaveKeys(proxyMap: map<string, string>, entries: seq<(string, string)>)
    requires forall k :: k in proxyMap ==> k != ""
    requires forall e :: e in entries ==> e.0 in proxyMap
    ensures NonEmptyPrefixes(entries)
    ensures forall i :: 0 <= i < |entries| ==> entries[i].0 in proxyMap
  {
    forall i | 0 <= i < |entries|
      ensures entries[i].0 in proxyMap
    {
      assert entries[i] in entries;
    }
  }

  /** `order` lists each rule of the hub's proxy map once, in the
      unspecified order a `HashMap` iterates them. */
  ghost predicate EnumeratesRules(hubData: map<string, string>, order: seq<(string, string)>) {
    |order| == |UrlProxyMap(hubData)|
    && (forall k :: k in UrlProxyMap(hubData) ==> (k, UrlProxyMap(hubData)[k]) in order)
    && (forall i :: 0 <= i < |order| ==> order[i].0 in UrlProxyMap(hubData) && order[i].0 != "")
  }

  /** A hub without rules has an empty enumeration. */
  lemma NoRulesNoOrder(hubData: map<string, string>, order: seq<(string, string)>)
    requires EnumeratesRules(hubData, order) && ReverseProxy !in hubData
    ensures order == []
  {
  }

  /** `replace_proxy_url`: applies every rule of `url_proxy_map` to the
      running URL, in the map's iteration order, which Rust leaves
      unspecified; `order` is the order taken. */
  method ReplaceProxyUrl(hubData: map<string, string>, url: string, regex: RegexReplacer)
    returns (result: string, ghost order: seq<(string, string)>)
    ensures EnumeratesRules(hubData, order)
    ensures result == ApplyRules(order, url, regex)
    ensures ReverseProxy !in hubData ==> result == url
  {
    var proxyMap := UrlProxyMap(hubData);
    var entries := MapEntries(proxyMap);
    EntriesHaveKeys(proxyMap, entries);
    result := url;
    for i := 0 to |entries|
      invariant NonEmptyPrefixes(entries[..i])
      invariant result == ApplyRules(entries[..i], url, regex)
    {
      ApplyRulesStep(entries, i, url, regex);
      result := ApplyRule(entries[i], result, regex);
    }
    assert entries[..|entries|] == entries;
    order := entries;
  }
}
